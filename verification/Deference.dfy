/** Terms and leaders: every answer tells the asker of a higher term, whoever hears of one defers to it, and whoever is
    named as leader has been one. */
module Deference {
  import opened Bytes
  import opened Log
  import opened NodeModel
  import opened Cluster
  import opened Elections
  import opened Departures
  import Safety

  function TermOf(req: Request): nat {
    match req
    case VoteCall(vote) => vote.term
    case AppendCall(append) => append.term
    case InstallCall(install) => install.term
  }

  function TermIn(resp: Response): nat {
    match resp
    case VoteReply(vote) => vote.term
    case AppendReply(append) => append.term
    case InstallReply(install) => install.term
  }

  /** Whoever serves a request is then in the higher of the two terms, and says so; in a new term it has voted for no
      one but the one who asked, and it no longer leads. */
  lemma AnswersCarryTheTerm(s: NodeState, req: Request, saved: bool)
    ensures var (n, resp) := Serve(s, req, saved);
            && n.term == TermIn(resp) == Max(s.term, TermOf(req))
            && (TermOf(req) > s.term ==> n.role == Follower)
            && (TermOf(req) > s.term ==>
                  n.votedFor == None || (req.VoteCall? && n.votedFor == Some(req.vote.candidate)))
            && (n.term == s.term && s.votedFor.Some? ==> n.votedFor == s.votedFor)
  {}

  /** A request of a leader whose term is not over makes its sender the known leader; a vote request never does. */
  lemma LeaderIsKnown(s: NodeState, req: Request, saved: bool)
    ensures var n := Serve(s, req, saved).0;
            match req
            case VoteCall(_) => n.currentLeader == s.currentLeader
            case AppendCall(r) =>
              if r.term >= s.term then n.currentLeader == Some(r.leader) && n.role == Follower else n == s
            case InstallCall(r) =>
              if r.term >= s.term then n.currentLeader == Some(r.leader) && n.role == Follower else n == s
  {}

  /** What stepping down to a higher term is. */
  ghost predicate DefersTo(s: NodeState, n: NodeState, term: nat) {
    && n.term == term && n.role == Follower && n.votedFor == None
    && n.log == s.log && n.snapshot == s.snapshot && n.currentLeader == s.currentLeader
  }

  // ---- Heartbeats ----

  lemma {:induction false} BeatsDefer(s: NodeState, beats: seq<Option<AppendResponse>>, i: nat)
    requires i <= |beats|
    ensures if exists k :: i <= k < |beats| && beats[k].Some? && beats[k].value.term > s.term
            then exists k :: && i <= k < |beats| && beats[k].Some? && beats[k].value.term > s.term
                             && DefersTo(s, CountBeats(s, beats, i), beats[k].value.term)
            else CountBeats(s, beats, i) == s
    decreases |beats| - i
  {
    if i < |beats| {
      BeatsDefer(s, beats, i + 1);
    }
  }

  /** A heartbeat makes the leader step down exactly if some answer carries a higher term, and to such a term; otherwise
      it changes nothing. */
  lemma HeartbeatDefers(s: NodeState, beats: seq<Option<AppendResponse>>)
    ensures var n := FinishHeartbeat(s, beats);
            if exists k :: 0 <= k < |beats| && beats[k].Some? && beats[k].value.term > s.term
            then exists k :: && 0 <= k < |beats| && beats[k].Some? && beats[k].value.term > s.term
                             && DefersTo(s, n, beats[k].value.term)
            else n == s.(phase := Idle)
  {
    BeatsDefer(s, beats, 0);
  }

  // ---- Replication rounds ----

  /** Some answer from the i-th on is an answer to AppendEntries, or to InstallSnapshot, with a higher term. */
  ghost predicate HigherAppend(results: seq<Option<Response>>, i: nat, term: nat) {
    exists k :: i <= k < |results| && results[k].Some? && results[k].value.AppendReply?
                && results[k].value.append.term > term
  }

  ghost predicate HigherInstall(results: seq<Option<Response>>, i: nat, term: nat) {
    exists k :: i <= k < |results| && results[k].Some? && results[k].value.InstallReply?
                && results[k].value.install.term > term
  }

  lemma {:induction false} AppendsDefer(s: NodeState, peers: seq<NodeId>, results: seq<Option<Response>>, i: nat,
      upTo: nat, acks: nat)
    requires |peers| == |results| && i <= |results|
    ensures var c := CountAppends(s, peers, results, i, upTo, acks);
            && (c.steppedDown <==> HigherAppend(results, i, s.term))
            && (c.steppedDown ==> c.node.term > s.term && DefersTo(s, c.node, c.node.term))
            && (!c.steppedDown ==> SameButIndexes(s, c.node))
    decreases |results| - i
  {
    if i < |results| {
      if results[i].Some? && results[i].value.AppendReply? {
        var resp := results[i].value.append;
        AppendsDefer(TakeAppendReply(s, peers[i], resp, upTo), peers, results, i + 1, upTo,
                     if resp.success then acks + 1 else acks);
      } else {
        AppendsDefer(s, peers, results, i + 1, upTo, acks);
      }
    }
  }

  lemma {:induction false} InstallsDefer(s: NodeState, peers: seq<NodeId>, results: seq<Option<Response>>, i: nat,
      acks: nat)
    requires |peers| == |results| && i <= |results|
    ensures var c := CountInstalls(s, peers, results, i, acks);
            && (c.steppedDown <==> HigherInstall(results, i, s.term))
            && (c.steppedDown ==> c.node.term > s.term && DefersTo(s, c.node, c.node.term))
            && (!c.steppedDown ==> SameButIndexes(s, c.node))
    decreases |results| - i
  {
    if i < |results| {
      if results[i].Some? && results[i].value.InstallReply? {
        var resp := results[i].value.install;
        InstallsDefer(TakeInstallReply(s, peers[i], resp), peers, results, i + 1,
                      if resp.success then acks + 1 else acks);
      } else {
        InstallsDefer(s, peers, results, i + 1, acks);
      }
    }
  }

  /** A leader steps down while it counts a round exactly if some answer carries a higher term; otherwise it changes
      nothing but its indexes. */
  lemma RoundDefers(s: NodeState, results: seq<Option<Response>>, upTo: nat)
    requires |results| == |s.config.peers|
    ensures var c := CountReplies(s, results, upTo);
            && (c.steppedDown <==> !NoHigherTerm(results, s.term))
            && (c.steppedDown ==> c.node.term > s.term && DefersTo(s, c.node, c.node.term))
            && (!c.steppedDown ==> SameButIndexes(s, c.node))
  {
    AppendsDefer(s, s.config.peers, results, 0, upTo, 1);
    var c := CountAppends(s, s.config.peers, results, 0, upTo, 1);
    InstallsDefer(c.node, s.config.peers, results, 0, c.count);
    HigherIsEither(results, s.term);
  }

  lemma HigherIsEither(results: seq<Option<Response>>, term: nat)
    ensures NoHigherTerm(results, term) <==> !HigherAppend(results, 0, term) && !HigherInstall(results, 0, term)
  {}

  // ---- Who is named as leader ----

  function LeaderOf(req: Request): NodeId {
    match req
    case VoteCall(vote) => vote.candidate
    case AppendCall(append) => append.leader
    case InstallCall(install) => install.leader
  }

  /** At some moment up to the i-th, `x` led `term`. */
  ghost predicate Led(run: Run, i: nat, x: NodeId, term: nat)
    requires IsRun(run) && i < |run.states|
  {
    exists k: nat :: k <= i && Leads(run.states[k], x, term)
  }

  lemma LedStays(run: Run, i: nat, j: nat, x: NodeId, term: nat)
    requires IsRun(run) && i <= j < |run.states| && Led(run, i, x, term)
    ensures Led(run, j, x, term)
  {}

  lemma SendersLead(a: NodeState, act: Action, p: Packet)
    requires Ready(a, act) && p in Sent(Step(a, act)) && !p.req.VoteCall?
    ensures var b := Step(a, act);
            b.role == Leader && b.config == a.config && LeaderOf(p.req) == a.config.id && TermOf(p.req) == b.term
  {
    ConfigUnchanged(a, act);
    match act
    case Deliver(req, saved) => Safety.ServeIdle(a, req, saved);
    case _ =>
  }

  lemma ConfiguredAt(run: Run, i: nat, n: NodeId)
    requires IsRun(run) && i < |run.states| && n in run.states[i].nodes
    ensures run.states[i].nodes[n].config.id == n
  {
    TalliedAt(run, i);
  }

  lemma NewSender(run: Run, i: nat, p: Packet)
    requires IsRun(run) && 0 < i < |run.states| && !p.req.VoteCall?
    requires p in run.states[i].calls && p !in run.states[i - 1].calls
    ensures Leads(run.states[i], LeaderOf(p.req), TermOf(p.req))
  {
    var s, e := run.states[i - 1], run.events[i - 1];
    assert StepOk(run, i - 1);
    SendersLead(s.nodes[e.node], e.action, p);
    ConfiguredAt(run, i - 1, e.node);
  }

  /** Every AppendEntries or InstallSnapshot request comes from a node that led the request's term. */
  lemma {:induction false} RequestsComeFromLeaders(run: Run, i: nat, p: Packet)
    requires IsRun(run) && i < |run.states| && p in run.states[i].calls && !p.req.VoteCall?
    ensures Led(run, i, LeaderOf(p.req), TermOf(p.req))
    decreases i
  {
    assert i > 0;
    if p in run.states[i - 1].calls {
      RequestsComeFromLeaders(run, i - 1, p);
      LedStays(run, i - 1, i, LeaderOf(p.req), TermOf(p.req));
    } else {
      NewSender(run, i, p);
    }
  }

  /** How a node comes to name a leader: it named it before, has just become it, or was just sent a request by it. */
  lemma HintCases(a: NodeState, act: Action)
    requires Ready(a, act)
    ensures var b := Step(a, act);
            || b.currentLeader == a.currentLeader
            || (b.role == Leader && b.currentLeader == Some(a.config.id))
            || (act.Deliver? && !act.req.VoteCall? && b.currentLeader == Some(LeaderOf(act.req)))
  {
    match act
    case Deliver(req, saved) => LeaderIsKnown(a, req, saved);
    case VotesCounted(votes) => CountVotesEffect(a, votes, 0, 1);
    case WriteCounted(results, saved) => CountRepliesEffect(a, results, a.phase.upTo);
    case BeatsCounted(beats) => CountBeatsEffect(a, beats, 0);
    case _ =>
  }

  lemma HintTurn(run: Run, i: nat, n: NodeId, x: NodeId)
    requires IsRun(run) && 0 < i < |run.states| && n in run.states[i].nodes
    requires run.states[i].nodes[n].currentLeader == Some(x)
    ensures n in run.states[i - 1].nodes
    ensures run.states[i - 1].nodes[n].currentLeader == Some(x) || exists term: nat :: Led(run, i, x, term)
  {
    var s, e := run.states[i - 1], run.events[i - 1];
    assert StepOk(run, i - 1);
    if e.node == n && e.Act? {
      HintCases(s.nodes[n], e.action);
      ConfiguredAt(run, i - 1, n);
      if e.action.Deliver? && !e.action.req.VoteCall? {
        var p := Packet(n, e.action.req);
        RequestsComeFromLeaders(run, i - 1, p);
        LedStays(run, i - 1, i, LeaderOf(p.req), TermOf(p.req));
      }
      if run.states[i].nodes[n].role == Leader {
        assert Leads(run.states[i], n, run.states[i].nodes[n].term);
        assert Led(run, i, n, run.states[i].nodes[n].term);
      }
    }
  }

  /** Whoever a node names to a redirected client has been a leader. */
  lemma {:induction false} HintsNameLeaders(run: Run, i: nat, n: NodeId, x: NodeId)
    requires IsRun(run) && i < |run.states| && n in run.states[i].nodes
    requires run.states[i].nodes[n].currentLeader == Some(x)
    ensures exists term: nat :: Led(run, i, x, term)
    decreases i
  {
    assert i > 0;
    HintTurn(run, i, n, x);
    if !(exists term: nat :: Led(run, i, x, term)) {
      HintsNameLeaders(run, i - 1, n, x);
      var term: nat :| Led(run, i - 1, x, term);
      LedStays(run, i - 1, i, x, term);
    }
  }

  /** A node that does not lead refuses a write with that name and changes nothing. */
  lemma WritesAreRedirected(s: NodeState, data: Bytes)
    requires s.role != Leader
    ensures NodeModel.BeginWrite(s, data) == (s, Some(NotLeader(s.currentLeader)))
  {}
}
