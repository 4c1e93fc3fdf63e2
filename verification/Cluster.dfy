/** A cluster of Raft nodes over a network that may lose, delay, repeat and reorder requests,
    with crashes at any durable write. */
module Cluster {
  import opened Bytes
  import opened Log
  import opened NodeModel

  datatype Packet = Packet(to: NodeId, req: Request)

  /** A response, tied to the call it answers: a caller never sees it as the answer to another call. */
  datatype Answer = Answer(from: NodeId, req: Request, resp: Response)

  /** `calls` and `answers` only grow: whatever was sent may arrive late, again, or never. */
  datatype Cluster = Cluster(nodes: map<NodeId, NodeState>, calls: set<Packet>, answers: set<Answer>)

  /** `Crash` loses what is not on disk; `CrashDuring` stops a step after its first `k + 1` durable writes.
      A crash after the last write of a step is the step followed by `Crash`. */
  datatype Event =
    | Act(node: NodeId, action: Action)
    | Crash(node: NodeId)
    | CrashDuring(node: NodeId, action: Action, k: nat)

  function PeerSet(peers: seq<NodeId>): set<NodeId> {
    set p | p in peers
  }

  ghost predicate Distinct(peers: seq<NodeId>) {
    forall i, j :: 0 <= i < j < |peers| ==> peers[i] != peers[j]
  }

  /** Every node knows its own name and lists each other member once. */
  ghost predicate Configured(s: Cluster) {
    forall n :: n in s.nodes ==>
      && s.nodes[n].config.id == n
      && Distinct(s.nodes[n].config.peers)
      && n !in PeerSet(s.nodes[n].config.peers)
      && PeerSet(s.nodes[n].config.peers) + {n} == s.nodes.Keys
  }

  ghost predicate Init(s: Cluster) {
    && Configured(s)
    && (forall n :: n in s.nodes ==> s.nodes[n] == Restart(s.nodes[n].config, FRESH_DISK))
    && s.calls == {} && s.answers == {}
  }

  // ---- One step ----

  /** The answers a finished round counted were really given, to this round's requests. */
  ghost predicate Answered(s: Cluster, a: NodeState, act: Action)
    requires Ready(a, act)
  {
    match act
    case VotesCounted(votes) =>
      forall i :: 0 <= i < |votes| && votes[i].Some? ==>
        Answer(a.config.peers[i], VoteCall(a.phase.ballot), VoteReply(votes[i].value)) in s.answers
    case WriteCounted(results, _) =>
      && |a.phase.sent| == |results|
      && forall i :: 0 <= i < |results| && results[i].Some? ==>
        Answer(a.config.peers[i], a.phase.sent[i], results[i].value) in s.answers
    case BeatsCounted(beats) =>
      forall i :: 0 <= i < |beats| && beats[i].Some? ==>
        Answer(a.config.peers[i], AppendCall(a.phase.beat), AppendReply(beats[i].value)) in s.answers
    case _ => true
  }

  ghost predicate CanAct(s: Cluster, n: NodeId, act: Action) {
    && n in s.nodes
    && Ready(s.nodes[n], act)
    && (act.Deliver? ==> Packet(n, act.req) in s.calls)
    && Answered(s, s.nodes[n], act)
  }

  ghost predicate Enabled(s: Cluster, e: Event) {
    match e
    case Act(n, act) => CanAct(s, n, act)
    case Crash(n) => n in s.nodes
    case CrashDuring(n, act, k) => CanAct(s, n, act) && k + 1 < |Writes(s.nodes[n], act)|
  }

  /** The requests a node sends when it starts a round. */
  function Sent(b: NodeState): set<Packet> {
    match b.phase
    case Idle => {}
    case Electing(ballot) => set p | p in b.config.peers :: Packet(p, VoteCall(ballot))
    case Replicating(_, sent) =>
      set i | 0 <= i < |b.config.peers| && i < |sent| :: Packet(b.config.peers[i], sent[i])
    case Heartbeating(beat) => set p | p in b.config.peers :: Packet(p, AppendCall(beat))
  }

  function AnswersOf(n: NodeId, a: NodeState, act: Action): set<Answer>
    requires Ready(a, act)
  {
    if act.Deliver? then {Answer(n, act.req, Serve(a, act.req, act.saved).1)} else {}
  }

  /** The state of the node the event happens at, afterwards. */
  ghost function NodeAfter(s: Cluster, e: Event): NodeState
    requires Enabled(s, e)
  {
    var a := s.nodes[e.node];
    match e
    case Act(n, act) => Step(a, act)
    case Crash(n) => Restart(a.config, a.Disk())
    case CrashDuring(n, act, k) => Restart(a.config, Writes(a, act)[k])
  }

  ghost function Apply(s: Cluster, e: Event): Cluster
    requires Enabled(s, e)
  {
    var b := NodeAfter(s, e);
    if e.Act? then
      Cluster(s.nodes[e.node := b], s.calls + Sent(b), s.answers + AnswersOf(e.node, s.nodes[e.node], e.action))
    else
      s.(nodes := s.nodes[e.node := b])
  }

  // ---- Runs ----

  datatype Run = Run(states: seq<Cluster>, events: seq<Event>)

  ghost predicate StepOk(run: Run, k: nat)
    requires k < |run.events| && |run.states| == |run.events| + 1
  {
    Enabled(run.states[k], run.events[k]) && run.states[k + 1] == Apply(run.states[k], run.events[k])
  }

  ghost predicate IsRun(run: Run) {
    && |run.states| == |run.events| + 1
    && Init(run.states[0])
    && forall k {:trigger StepOk(run, k)} :: 0 <= k < |run.events| ==> StepOk(run, k)
  }

  /** No node has compacted its log or installed a snapshot. */
  ghost predicate Uncompacted(s: Cluster) {
    forall n :: n in s.nodes ==> s.nodes[n].log.snapshotIndex == 0
  }

  lemma ConfiguredKept(s: Cluster, e: Event)
    requires Configured(s) && Enabled(s, e)
    ensures Apply(s, e).nodes.Keys == s.nodes.Keys
    ensures NodeAfter(s, e).config == s.nodes[e.node].config
    ensures Configured(Apply(s, e))
  {
    var a := s.nodes[e.node];
    if e.Act? {
      ConfigUnchanged(a, e.action);
    }
  }

  /** `b` is `a` up to the replication indexes a leader keeps per peer. */
  ghost predicate SameButIndexes(a: NodeState, b: NodeState) {
    b == a.(nextIndex := b.nextIndex, matchIndex := b.matchIndex)
  }

  /** What a counting loop can do to the node: adjust its indexes, and then perhaps step down for a higher term. */
  ghost predicate CountedFrom(a: NodeState, c: Count) {
    if c.steppedDown
    then c.node.term > a.term
         && c.node == a.(nextIndex := c.node.nextIndex, matchIndex := c.node.matchIndex).StepDown(c.node.term)
    else SameButIndexes(a, c.node)
  }

  lemma {:induction false} CountVotesEffect(s: NodeState, results: seq<Option<VoteResponse>>, i: nat, votes: nat)
    requires i <= |results|
    ensures CountedFrom(s, CountVotes(s, results, i, votes))
    ensures !CountVotes(s, results, i, votes).steppedDown ==> CountVotes(s, results, i, votes).node == s
    decreases |results| - i
  {
    if i < |results| {
      var resp := results[i];
      CountVotesEffect(s, results, i + 1, if resp.Some? && resp.value.granted then votes + 1 else votes);
    }
  }

  lemma {:induction false} CountAppendsEffect(s: NodeState, peers: seq<NodeId>, results: seq<Option<Response>>,
      i: nat, upTo: nat, acks: nat)
    requires |peers| == |results| && i <= |results|
    ensures CountedFrom(s, CountAppends(s, peers, results, i, upTo, acks))
    decreases |results| - i
  {
    if i < |results| {
      if results[i].Some? && results[i].value.AppendReply? {
        var resp := results[i].value.append;
        CountAppendsEffect(TakeAppendReply(s, peers[i], resp, upTo), peers, results, i + 1, upTo,
                           if resp.success then acks + 1 else acks);
      } else {
        CountAppendsEffect(s, peers, results, i + 1, upTo, acks);
      }
    }
  }

  lemma {:induction false} CountInstallsEffect(s: NodeState, peers: seq<NodeId>, results: seq<Option<Response>>,
      i: nat, acks: nat)
    requires |peers| == |results| && i <= |results|
    ensures CountedFrom(s, CountInstalls(s, peers, results, i, acks))
    decreases |results| - i
  {
    if i < |results| {
      if results[i].Some? && results[i].value.InstallReply? {
        var resp := results[i].value.install;
        CountInstallsEffect(TakeInstallReply(s, peers[i], resp), peers, results, i + 1,
                            if resp.success then acks + 1 else acks);
      } else {
        CountInstallsEffect(s, peers, results, i + 1, acks);
      }
    }
  }

  lemma CountRepliesEffect(s: NodeState, results: seq<Option<Response>>, upTo: nat)
    requires |s.config.peers| == |results|
    ensures CountedFrom(s, CountReplies(s, results, upTo))
  {
    CountAppendsEffect(s, s.config.peers, results, 0, upTo, 1);
    var c := CountAppends(s, s.config.peers, results, 0, upTo, 1);
    CountInstallsEffect(c.node, s.config.peers, results, 0, c.count);
  }

  lemma {:induction false} CountBeatsEffect(s: NodeState, results: seq<Option<AppendResponse>>, i: nat)
    requires i <= |results|
    ensures var b := CountBeats(s, results, i); b == s || (b.term > s.term && b == s.StepDown(b.term))
    decreases |results| - i
  {
    if i < |results| {
      CountBeatsEffect(s, results, i + 1);
    }
  }

  /** No handler touches the configuration. */
  lemma ConfigUnchanged(a: NodeState, act: Action)
    requires Ready(a, act)
    ensures Step(a, act).config == a.config
  {
    match act
    case VotesCounted(votes) => CountVotesEffect(a, votes, 0, 1);
    case WriteCounted(results, saved) => CountRepliesEffect(a, results, a.phase.upTo);
    case BeatsCounted(beats) => CountBeatsEffect(a, beats, 0);
    case _ =>
  }
}
