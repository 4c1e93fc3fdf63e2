/** How the state of an uncompacted cluster and its network match the histories of `Elections` and `Ledger`,
    and how each step of a node moves those histories on. */
module Coupling {
  import opened Bytes
  import opened Log
  import opened NodeModel
  import opened Cluster
  import opened Elections
  import opened Ledger

  // ---- Commit indexes ----

  /** Commit `d` covers the first `c` entries of `log`. */
  ghost predicate Covers(l: Ledger, d: Commit, log: seq<LogEntry>, c: nat, term: nat) {
    d in l.commits && d.term <= term && d.term in l.reigns && c <= d.upTo && Agree(log, l.reigns[d.term].log, c)
  }

  ghost predicate CommittedPrefix(l: Ledger, log: seq<LogEntry>, c: nat, term: nat) {
    c <= |log| && (c == 0 || exists d :: Covers(l, d, log, c, term))
  }

  lemma CommittedGrows(l: Ledger, m: Ledger, log: seq<LogEntry>, log': seq<LogEntry>, c: nat, term: nat, term': nat)
    requires CommittedPrefix(l, log, c, term)
    requires Grows(l, m) && term <= term' && Agree(log, log', c)
    ensures CommittedPrefix(m, log', c, term')
  {
    if c > 0 {
      var d :| Covers(l, d, log, c, term);
      assert Covers(m, d, log', c, term');
    }
  }

  // ---- One node ----

  /** A leader knows where every peer's next entry is, and it is within reach of its own log. */
  ghost predicate IndexesOk(a: NodeState) {
    forall i :: 0 <= i < |a.config.peers| ==>
      a.config.peers[i] in a.nextIndex && 1 <= a.nextIndex[a.config.peers[i]] <= a.log.LastIndex() + 1
  }

  ghost predicate LeaderOk(l: Ledger, a: NodeState) {
    a.role == Leader ==> a.term in l.reigns && a.log.entries == l.reigns[a.term].log && IndexesOk(a)
  }

  /** Whoever voted for a candidate had no better log. */
  ghost predicate CandidateOk(t: Tally, l: Ledger, n: NodeId, a: NodeState) {
    a.phase.Electing? ==>
      && a.term >= 1
      && forall v :: (v, a.term) in t.ballots && t.ballots[(v, a.term)] == n ==>
           (v, a.term) in l.voterLogs && AtLeast(a.log.entries, l.voterLogs[(v, a.term)])
  }

  /** A request of the leader of `term` that reaches exactly `upTo`. */
  ghost predicate Carries(req: Request, term: nat, upTo: nat) {
    req.AppendCall? && req.append.term == term && req.append.prevLogIndex + |req.append.entries| == upTo
  }

  ghost predicate RoundOk(l: Ledger, n: NodeId, a: NodeState) {
    a.phase.Replicating? ==>
      && 0 < a.phase.upTo == |a.log.entries|
      && a.log.entries[a.phase.upTo - 1].term == a.term
      && Ack(n, a.term, a.phase.upTo) in l.acks
      && |a.phase.sent| == |a.config.peers|
      && forall i :: 0 <= i < |a.phase.sent| ==> Carries(a.phase.sent[i], a.term, a.phase.upTo)
  }

  ghost predicate NodeCoupled(t: Tally, l: Ledger, n: NodeId, a: NodeState) {
    && n in l.logs && a.log == Log(0, 0, l.logs[n])
    && CommittedPrefix(l, a.log.entries, a.commitIndex, a.term)
    && LeaderOk(l, a) && CandidateOk(t, l, n, a) && RoundOk(l, n, a)
  }

  // ---- The network ----

  /** A request of a leader quotes that leader's log, and commits nothing beyond what it quotes. */
  ghost predicate AppendOk(l: Ledger, r: AppendRequest) {
    && r.term in l.reigns
    && var log, end := l.reigns[r.term].log, r.prevLogIndex + |r.entries|;
    && end <= |log|
    && (r.prevLogIndex > 0 ==> r.prevLogTerm == log[r.prevLogIndex - 1].term)
    && (forall i :: 0 <= i < |r.entries| ==> r.entries[i] == log[r.prevLogIndex + i])
    && r.leaderCommit <= end
    && CommittedPrefix(l, log, r.leaderCommit, r.term)
  }

  ghost predicate AppendsOk(l: Ledger, packets: set<Packet>) {
    forall p :: p in packets ==> p.req.AppendCall? && AppendOk(l, p.req.append)
  }

  /** A candidate sends one vote request per term. */
  ghost predicate VoteCallOk(s: Cluster, t: Tally, r: VoteRequest) {
    && r.candidate in s.nodes && r.candidate in t.terms
    && 1 <= r.term <= t.terms[r.candidate]
    && var c := s.nodes[r.candidate];
       c.phase.Electing? && c.term == r.term ==> c.phase.ballot == r
  }

  ghost predicate CallOk(s: Cluster, t: Tally, l: Ledger, p: Packet) {
    match p.req
    case VoteCall(r) => VoteCallOk(s, t, r) && p.to != r.candidate
    case AppendCall(r) => AppendOk(l, r)
    case InstallCall(_) => false
  }

  /** An accepted request was acknowledged; the hint of a rejected one never points past what was quoted. */
  ghost predicate AnswerOk(l: Ledger, ans: Answer) {
    ans.req.AppendCall? ==>
      && ans.resp.AppendReply?
      && var r, x := ans.req.append, ans.resp.append;
      if x.success then Ack(ans.from, r.term, r.prevLogIndex + |r.entries|) in l.acks
      else x.conflictIndex <= r.prevLogIndex
  }

  /** No ballot names a candidate that has not reached its term. */
  ghost predicate CandidatesReached(t: Tally) {
    forall b :: b in t.ballots && t.ballots[b] in t.terms ==> b.1 <= t.terms[t.ballots[b]]
  }

  ghost predicate NodesCoupled(s: Cluster, t: Tally, l: Ledger) {
    forall n :: n in s.nodes ==> NodeCoupled(t, l, n, s.nodes[n])
  }

  ghost predicate CallsOk(s: Cluster, t: Tally, l: Ledger) {
    forall p :: p in s.calls ==> CallOk(s, t, l, p)
  }

  ghost predicate AnswersOk(s: Cluster, l: Ledger) {
    forall ans :: ans in s.answers ==> AnswerOk(l, ans)
  }

  ghost predicate Coupled(s: Cluster, t: Tally, l: Ledger) {
    Consistent(t, l) && NodesCoupled(s, t, l) && CallsOk(s, t, l) && AnswersOk(s, l) && CandidatesReached(t)
  }

  // ---- Moving on ----

  /** A new ballot for a candidate whose election is under way was cast by a node with no better log. */
  ghost predicate BallotFits(s: Cluster, n: NodeId, t: Tally, l: Ledger, u: Tally, m: Ledger) {
    forall b :: b in u.ballots && b !in t.ballots ==>
      && b.0 == n && b in m.voterLogs
      && u.ballots[b] in u.terms && b.1 <= u.terms[u.ballots[b]]
      && var c := u.ballots[b];
         c != n && c in s.nodes && s.nodes[c].phase.Electing? && s.nodes[c].term == b.1 ==>
           AtLeast(s.nodes[c].log.entries, m.voterLogs[b])
  }

  /** Histories `u`, `m` add to `t`, `l` nothing but what node `n` did. */
  ghost predicate Extends(s: Cluster, n: NodeId, t: Tally, l: Ledger, u: Tally, m: Ledger) {
    && Grows(l, m) && TallyGrows(t, u)
    && (forall x :: x in l.logs && x != n ==> m.logs[x] == l.logs[x])
    && (forall x :: x in t.terms && x != n ==> u.terms[x] == t.terms[x])
    && (forall r :: r in l.reigns && r in t.wins && t.wins[r].leader != n ==> m.reigns[r] == l.reigns[r])
    && BallotFits(s, n, t, l, u, m)
  }

  /** Histories `u`, `m` continue `t`, `l` with a step of node `n` to state `b`. */
  ghost predicate Turn(s: Cluster, n: NodeId, b: NodeState, t: Tally, l: Ledger, u: Tally, m: Ledger) {
    Consistent(u, m) && Extends(s, n, t, l, u, m) && NodeCoupled(u, m, n, b)
  }

  lemma OthersStayCoupled(s: Cluster, n: NodeId, b: NodeState, t: Tally, l: Ledger, u: Tally, m: Ledger, x: NodeId)
    requires Turn(s, n, b, t, l, u, m)
    requires x in s.nodes && x != n && x in t.terms && NodeOk(t, x, s.nodes[x]) && NodeCoupled(t, l, x, s.nodes[x])
    ensures NodeCoupled(u, m, x, s.nodes[x])
  {
    var a := s.nodes[x];
    CommittedGrows(l, m, a.log.entries, a.log.entries, a.commitIndex, a.term, a.term);
    if a.phase.Electing? {
      forall v | (v, a.term) in u.ballots && u.ballots[(v, a.term)] == x
        ensures (v, a.term) in m.voterLogs && AtLeast(a.log.entries, m.voterLogs[(v, a.term)])
      {
        assert (v, a.term) in t.ballots ==> (v, a.term) in l.voterLogs;
      }
    }
  }

  lemma AppendOkGrows(l: Ledger, m: Ledger, r: AppendRequest)
    requires AppendOk(l, r) && Grows(l, m)
    ensures AppendOk(m, r)
  {
    CommittedGrows(l, m, l.reigns[r.term].log, m.reigns[r.term].log, r.leaderCommit, r.term, r.term);
  }

  lemma CallsStayOk(s: Cluster, n: NodeId, b: NodeState, t: Tally, l: Ledger, u: Tally, m: Ledger, s': Cluster,
      p: Packet)
    requires Turn(s, n, b, t, l, u, m) && n in s.nodes && n in t.terms
    requires s'.nodes == s.nodes[n := b]
    requires NodeOk(t, n, s.nodes[n]) && VoteMove(n, s.nodes[n], b)
    requires CallOk(s, t, l, p)
    ensures CallOk(s', u, m, p)
  {
    if p.req.AppendCall? {
      AppendOkGrows(l, m, p.req.append);
    }
  }

  lemma TurnKeepsNodes(s: Cluster, n: NodeId, b: NodeState, t: Tally, l: Ledger, u: Tally, m: Ledger, s': Cluster)
    requires Tallied(s, t) && NodesCoupled(s, t, l)
    requires Turn(s, n, b, t, l, u, m)
    requires s'.nodes == s.nodes[n := b]
    ensures NodesCoupled(s', u, m)
  {
    forall x | x in s'.nodes
      ensures NodeCoupled(u, m, x, s'.nodes[x])
    {
      if x != n {
        assert NodeOk(t, x, s.nodes[x]);
        OthersStayCoupled(s, n, b, t, l, u, m, x);
      }
    }
  }

  lemma TurnKeepsCalls(s: Cluster, n: NodeId, b: NodeState, t: Tally, l: Ledger, u: Tally, m: Ledger, s': Cluster)
    requires n in s.nodes && n in t.terms && NodeOk(t, n, s.nodes[n]) && CallsOk(s, t, l)
    requires Turn(s, n, b, t, l, u, m) && VoteMove(n, s.nodes[n], b)
    requires s'.nodes == s.nodes[n := b]
    requires forall p :: p in s'.calls && p !in s.calls ==> CallOk(s', u, m, p)
    ensures CallsOk(s', u, m)
  {
    forall p | p in s'.calls
      ensures CallOk(s', u, m, p)
    {
      if p in s.calls {
        CallsStayOk(s, n, b, t, l, u, m, s', p);
      }
    }
  }

  lemma TurnKeepsAnswers(s: Cluster, l: Ledger, m: Ledger, s': Cluster)
    requires AnswersOk(s, l) && Grows(l, m)
    requires forall ans :: ans in s'.answers && ans !in s.answers ==> AnswerOk(m, ans)
    ensures AnswersOk(s', m)
  {
    forall ans | ans in s'.answers
      ensures AnswerOk(m, ans)
    {
      assert ans in s.answers ==> AnswerOk(l, ans);
    }
  }

  lemma TurnKeepsReach(s: Cluster, n: NodeId, t: Tally, l: Ledger, u: Tally, m: Ledger)
    requires CandidatesReached(t) && TallyGrows(t, u) && BallotFits(s, n, t, l, u, m)
    ensures CandidatesReached(u)
  {}

  /** Once every part of a step is accounted for, the whole cluster is coupled again. */
  lemma TurnKeepsCoupled(s: Cluster, n: NodeId, b: NodeState, t: Tally, l: Ledger, u: Tally, m: Ledger, s': Cluster)
    requires Tallied(s, t) && Coupled(s, t, l)
    requires Turn(s, n, b, t, l, u, m) && n in s.nodes
    requires s'.nodes == s.nodes[n := b] && VoteMove(n, s.nodes[n], b)
    requires forall p :: p in s'.calls && p !in s.calls ==> CallOk(s', u, m, p)
    requires forall ans :: ans in s'.answers && ans !in s.answers ==> AnswerOk(m, ans)
    ensures Coupled(s', u, m)
  {
    assert NodeOk(t, n, s.nodes[n]);
    TurnKeepsNodes(s, n, b, t, l, u, m, s');
    TurnKeepsCalls(s, n, b, t, l, u, m, s');
    TurnKeepsAnswers(s, l, m, s');
    TurnKeepsReach(s, n, t, l, u, m);
  }
}
