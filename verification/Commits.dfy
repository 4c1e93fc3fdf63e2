/** Followers do commit: what a leader has committed reaches every peer that accepts one of its requests. */
module Commits {
  import opened Bytes
  import opened Log
  import opened NodeModel
  import opened Cluster
  import opened Ledger
  import opened Coupling
  import opened Safety
  import opened Theorems

  // ---- One request ----

  /** An accepted request commits everything the leader has committed and the follower now holds, and otherwise leaves
      the commit index alone. */
  lemma AcceptanceCommits(s: NodeState, req: AppendRequest)
    requires OnAppendEntries(s, req).1.success
    ensures var n := OnAppendEntries(s, req).0;
            && (forall c: nat :: c <= req.leaderCommit && n.log.TermAt(c).Some? ==> c <= n.commitIndex)
            && (n.commitIndex != s.commitIndex ==>
                  n.commitIndex <= req.leaderCommit && n.commitIndex <= n.log.LastIndex())
            && (req.leaderCommit <= s.commitIndex ==> n.commitIndex == s.commitIndex)
  {}

  /** A refused one commits nothing. */
  lemma RefusalCommitsNothing(s: NodeState, req: AppendRequest)
    requires !OnAppendEntries(s, req).1.success
    ensures OnAppendEntries(s, req).0.commitIndex == s.commitIndex && OnAppendEntries(s, req).0.log == s.log
  {}

  /** An effective snapshot installation commits all that the snapshot covers. */
  lemma InstallationCommits(s: NodeState, req: InstallRequest)
    requires req.term >= s.term && req.snapshot.lastIndex > s.log.snapshotIndex
    ensures var n := OnInstallSnapshot(s, req, true).0;
            && n.commitIndex >= req.snapshot.lastIndex && n.commitIndex >= s.commitIndex
            && (n.commitIndex == s.commitIndex || n.commitIndex == req.snapshot.lastIndex)
  {}

  // ---- Runs ----

  /** Every request carries the commit index its sender has as long as it waits for the answers, and its term and
      name. */
  ghost predicate Quotes(b: NodeState) {
    forall p :: p in Sent(b) && p.req.AppendCall? ==>
      && p.req.append.leaderCommit == b.commitIndex
      && p.req.append.term == b.term && p.req.append.leader == b.config.id
  }

  lemma StepQuotes(a: NodeState, act: Action)
    requires Ready(a, act)
    ensures Quotes(Step(a, act))
  {
    match act
    case Deliver(req, saved) => ServeIdle(a, req, saved);
    case VotesCounted(votes) =>
    case WriteCounted(results, saved) =>
    case BeatsCounted(beats) =>
    case Timeout =>
    case ClientWrite(data) => WriteQuotes(a, data);
  }

  lemma WriteQuotes(a: NodeState, data: Bytes)
    requires a.phase.Idle?
    ensures Quotes(BeginWrite(a, data).0)
  {}

  lemma EventQuotes(s: Cluster, e: Event, n: NodeId)
    requires Enabled(s, e) && n in s.nodes && Quotes(s.nodes[n])
    ensures Quotes(Apply(s, e).nodes[n])
  {
    if e.node == n && e.Act? {
      StepQuotes(s.nodes[n], e.action);
    }
  }

  lemma NodesStay(s: Cluster, e: Event)
    requires Enabled(s, e)
    ensures Apply(s, e).nodes.Keys == s.nodes.Keys
  {}

  lemma {:induction false} RunQuotes(run: Run, i: nat, n: NodeId)
    requires IsRun(run) && i < |run.states| && n in run.states[i].nodes
    ensures Quotes(run.states[i].nodes[n])
    decreases i
  {
    if i > 0 {
      assert StepOk(run, i - 1);
      NodesStay(run.states[i - 1], run.events[i - 1]);
      RunQuotes(run, i - 1, n);
      EventQuotes(run.states[i - 1], run.events[i - 1], n);
    }
  }

  /** Event `j` is node `n` accepting this request. */
  ghost predicate Accepts(run: Run, j: nat, n: NodeId, req: AppendRequest)
    requires IsRun(run) && j < |run.events|
  {
    && run.events[j].Act? && run.events[j].node == n && n in run.states[j].nodes
    && run.events[j].action.Deliver? && run.events[j].action.req == AppendCall(req)
    && OnAppendEntries(run.states[j].nodes[n], req).1.success
  }

  lemma AcceptedReaches(run: Run, j: nat, n: NodeId, req: AppendRequest)
    requires UncompactedRun(run) && j < |run.events| && Accepts(run, j, n, req)
    ensures OnAppendEntries(run.states[j].nodes[n], req).0.log.LastIndex() >= req.leaderCommit
  {
    var s, a := run.states[j], run.states[j].nodes[n];
    assert StepOk(run, j);
    var t, l := HistoryAt(run, j);
    KnownLocal(s, t, l, n);
    KnownCall(s, t, l, Packet(n, AppendCall(req)));
    AppendCases(t, l, n, a, req);
  }

  /** In a run an accepted request leaves the follower with everything committed that the request says is. */
  lemma AcceptedRequestCommits(run: Run, j: nat, n: NodeId, req: AppendRequest)
    requires UncompactedRun(run) && j < |run.events| && Accepts(run, j, n, req)
    ensures n in run.states[j + 1].nodes && run.states[j + 1].nodes[n].commitIndex >= req.leaderCommit
  {
    assert StepOk(run, j);
    AcceptedReaches(run, j, n, req);
    AcceptanceCommits(run.states[j].nodes[n], req);
  }

  /** Commitment reaches the followers: a peer that accepts a request of a round has then committed all that the leader
      had committed during that round, and holds the same entries there. */
  lemma FollowersLearn(run: Run, i: nat, j: nat, leader: NodeId, n: NodeId, req: AppendRequest)
    requires UncompactedRun(run) && i < |run.states| && j < |run.events| && leader in run.states[i].nodes
    requires Packet(n, AppendCall(req)) in Sent(run.states[i].nodes[leader]) && Accepts(run, j, n, req)
    ensures n in run.states[j + 1].nodes
    ensures var c := run.states[i].nodes[leader].commitIndex;
            && c <= run.states[j + 1].nodes[n].commitIndex
            && Agree(Entries(run.states[i], leader), Entries(run.states[j + 1], n), c)
  {
    RunQuotes(run, i, leader);
    AcceptedRequestCommits(run, j, n, req);
    StateMachineSafety(run, i, j + 1, leader, n, run.states[i].nodes[leader].commitIndex);
  }
}
