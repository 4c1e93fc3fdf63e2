/** The runs the theorems are about exist: one in which a leader of three reports a client's write that a peer has
    acknowledged, although the other peer makes it step down while it counts. */
module Witness {
  import opened Bytes
  import opened Log
  import opened NodeModel
  import opened Cluster
  import opened Safety
  import opened Theorems

  const A: NodeId := [1]
  const B: NodeId := [2]
  const C: NodeId := [3]

  // ---- Building a run event by event ----

  function Last(run: Run): Cluster
    requires |run.states| == |run.events| + 1
  {
    run.states[|run.events|]
  }

  /** An uncompacted run goes on with any event that leads to an uncompacted state. */
  lemma Extended(run: Run, e: Event) returns (longer: Run)
    requires UncompactedRun(run) && Enabled(Last(run), e) && Uncompacted(Apply(Last(run), e))
    ensures UncompactedRun(longer) && longer.events == run.events + [e]
    ensures longer.states == run.states + [Apply(Last(run), e)]
  {
    longer := Run(run.states + [Apply(Last(run), e)], run.events + [e]);
    forall k | 0 <= k < |longer.events|
      ensures StepOk(longer, k)
    {
      if k < |run.events| {
        assert StepOk(run, k);
      }
    }
  }

  ghost predicate At(run: Run, nodes: map<NodeId, NodeState>) {
    UncompactedRun(run) && Last(run).nodes == nodes
  }

  lemma Acted(run: Run, nodes: map<NodeId, NodeState>, n: NodeId, act: Action, b: NodeState) returns (longer: Run)
    requires At(run, nodes) && CanAct(Last(run), n, act)
    requires b == Step(nodes[n], act) && b.log.snapshotIndex == 0
    ensures At(longer, nodes[n := b]) && longer.events == run.events + [Act(n, act)]
    ensures Last(longer).calls == Last(run).calls + Sent(b)
    ensures Last(longer).answers == Last(run).answers + AnswersOf(n, nodes[n], act)
    ensures longer.states == run.states + [Last(longer)]
  {
    longer := Extended(run, Act(n, act));
  }

  // ---- The states of the run ----

  const BALLOT := VoteRequest(1, A, 0, 0)
  const GRANTED := VoteResponse(1, true)

  function Fresh(id: NodeId, peers: seq<NodeId>): NodeState {
    Restart(Config(id, peers), FRESH_DISK)
  }

  function Candidacy(): NodeState {
    Fresh(A, [B, C]).(term := 1, votedFor := Some(A), role := Candidate, phase := Electing(BALLOT))
  }

  function Voter(): NodeState {
    Fresh(B, [A, C]).(term := 1, votedFor := Some(A))
  }

  function Winner(): NodeState {
    Candidacy().(phase := Idle).BecomeLeader()
  }

  function Appended(data: Bytes): AppendRequest {
    AppendRequest(1, A, 0, 0, [LogEntry(1, 1, data)], 0)
  }

  function Writer(data: Bytes): NodeState {
    Winner().(log := Log(0, 0, [LogEntry(1, 1, data)]),
              phase := Replicating(1, [AppendCall(Appended(data)), AppendCall(Appended(data))]))
  }

  function Keeper(data: Bytes): NodeState {
    Voter().(log := Log(0, 0, [LogEntry(1, 1, data)]), currentLeader := Some(A))
  }

  /** The third member after `term` elections nobody answered. */
  function Rival(term: nat): NodeState {
    if term == 0 then Fresh(C, [A, B]) else Fresh(C, [A, B]).(term := term, votedFor := Some(C))
  }

  function Standing(term: nat): NodeState {
    Rival(term).(role := Candidate, phase := Electing(VoteRequest(term, C, 0, 0)))
  }

  function Replies(): seq<Option<Response>> {
    [Some(AppendReply(AppendResponse(1, true, 0, 0))), Some(AppendReply(AppendResponse(2, false, 0, 0)))]
  }

  // ---- Its steps ----

  lemma Elects()
    ensures Step(Fresh(A, [B, C]), Timeout) == Candidacy()
    ensures Serve(Fresh(B, [A, C]), VoteCall(BALLOT), false) == (Voter(), VoteReply(GRANTED))
    ensures Step(Candidacy(), VotesCounted([Some(GRANTED), None])) == Winner()
    ensures Packet(B, VoteCall(BALLOT)) in Sent(Candidacy())
  {
    var votes := [Some(GRANTED), None];
    assert CountVotes(Candidacy(), votes, 2, 2) == Count(Candidacy(), 2, false);
    assert CountVotes(Candidacy(), votes, 0, 1) == CountVotes(Candidacy(), votes, 1, 2);
    assert B in [B, C];
  }

  lemma Quotes(data: Bytes)
    ensures Log(0, 0, [LogEntry(1, 1, data)]) == EMPTY.Append(1, data)
    ensures UpTo(Log(0, 0, [LogEntry(1, 1, data)]).EntriesFrom(1), 1) == [LogEntry(1, 1, data)]
  {
    var e := LogEntry(1, 1, data);
    assert Log(0, 0, [e]).EntriesFrom(1) == [e];
    assert UpTo([e], 1) == [e] + UpTo([e][1..], 1);
  }

  lemma AsksPeer(data: Bytes, peer: NodeId)
    requires peer in [B, C]
    ensures BuildRequest(Winner().(log := Log(0, 0, [LogEntry(1, 1, data)])), peer, 1) == AppendCall(Appended(data))
  {
    Quotes(data);
    assert Winner().nextIndex[peer] == 1;
  }

  lemma Asks(data: Bytes)
    ensures Step(Winner(), ClientWrite(data)) == Writer(data)
  {
    var a := Winner().(log := Log(0, 0, [LogEntry(1, 1, data)]));
    Quotes(data);
    AsksPeer(data, B);
    AsksPeer(data, C);
    assert BuildRequests(a, 1) == Writer(data).phase.sent;
  }

  lemma Asked(data: Bytes)
    ensures Packet(B, AppendCall(Appended(data))) in Sent(Writer(data))
    ensures Packet(C, AppendCall(Appended(data))) in Sent(Writer(data))
  {
    var w := Writer(data);
    assert Packet(w.config.peers[0], w.phase.sent[0]) in Sent(w);
    assert Packet(w.config.peers[1], w.phase.sent[1]) in Sent(w);
  }

  lemma Stands(term: nat)
    ensures Step(Rival(term), Timeout) == Standing(term + 1)
    ensures Step(Standing(term + 1), VotesCounted([None, None])) == Rival(term + 1)
  {}

  lemma Answers(data: Bytes)
    ensures Serve(Voter(), AppendCall(Appended(data)), false)
            == (Keeper(data), AppendReply(AppendResponse(1, true, 0, 0)))
    ensures Serve(Rival(2), AppendCall(Appended(data)), false)
            == (Rival(2), AppendReply(AppendResponse(2, false, 0, 0)))
  {
    var e := LogEntry(1, 1, data);
    Quotes(data);
    assert Merge(EMPTY, [e]) == Merge(MergeOne(EMPTY, e), [e][1..]) == EMPTY.Append(1, data);
  }

  lemma Counts(data: Bytes)
    ensures CommitsWrite(Writer(data), WriteCounted(Replies(), false))
    ensures Step(Writer(data), WriteCounted(Replies(), false)).log == Writer(data).log
    ensures Step(Writer(data), WriteCounted(Replies(), false)).role == Follower
    ensures Step(Writer(data), WriteCounted(Replies(), false)).term == 2
  {}

  // ---- The run ----

  function Trio(a: NodeState, b: NodeState, c: NodeState): map<NodeId, NodeState> {
    map[A := a, B := b, C := c]
  }

  lemma TrioSet(a: NodeState, b: NodeState, c: NodeState, x: NodeState)
    ensures Trio(a, b, c)[A := x] == Trio(x, b, c)
    ensures Trio(a, b, c)[B := x] == Trio(a, x, c)
    ensures Trio(a, b, c)[C := x] == Trio(a, b, x)
  {}

  lemma Fellows(id: NodeId, p: NodeId, q: NodeId)
    requires id != p && p != q && q != id
    ensures PeerSet([p, q]) == {p, q} && Distinct([p, q])
    ensures id !in PeerSet([p, q]) && PeerSet([p, q]) + {id} == {id, p, q}
  {}

  lemma TrioConfigured(s: Cluster)
    requires s.nodes == Trio(Fresh(A, [B, C]), Fresh(B, [A, C]), Rival(0))
    ensures Configured(s)
  {
    Fellows(A, B, C);
    Fellows(B, A, C);
    Fellows(C, A, B);
    assert s.nodes.Keys == {A, B, C};
  }

  lemma Begun() returns (run: Run)
    ensures At(run, Trio(Fresh(A, [B, C]), Fresh(B, [A, C]), Rival(0)))
  {
    var s := Cluster(Trio(Fresh(A, [B, C]), Fresh(B, [A, C]), Rival(0)), {}, {});
    TrioConfigured(s);
    run := Run([s], []);
  }

  lemma Nominated() returns (run: Run)
    ensures At(run, Trio(Candidacy(), Fresh(B, [A, C]), Rival(0)))
    ensures Packet(B, VoteCall(BALLOT)) in Last(run).calls
  {
    var a, b, c := Fresh(A, [B, C]), Fresh(B, [A, C]), Rival(0);
    run := Begun();
    Elects();
    TrioSet(a, b, c, Candidacy());
    run := Acted(run, Trio(a, b, c), A, Timeout, Candidacy());
  }

  lemma Supported() returns (run: Run)
    ensures At(run, Trio(Candidacy(), Voter(), Rival(0)))
    ensures Answer(B, VoteCall(BALLOT), VoteReply(GRANTED)) in Last(run).answers
  {
    run := Nominated();
    Elects();
    TrioSet(Candidacy(), Fresh(B, [A, C]), Rival(0), Voter());
    run := Acted(run, Trio(Candidacy(), Fresh(B, [A, C]), Rival(0)), B, Deliver(VoteCall(BALLOT), false), Voter());
  }

  lemma Elected() returns (run: Run)
    ensures At(run, Trio(Winner(), Voter(), Rival(0)))
  {
    run := Supported();
    Elects();
    TrioSet(Candidacy(), Voter(), Rival(0), Winner());
    run := Acted(run, Trio(Candidacy(), Voter(), Rival(0)), A, VotesCounted([Some(GRANTED), None]), Winner());
  }

  /** The rival stands once more, in the next term. */
  lemma Stood(run: Run, a: NodeState, b: NodeState, term: nat) returns (longer: Run)
    requires At(run, Trio(a, b, Rival(term)))
    ensures At(longer, Trio(a, b, Rival(term + 1)))
    ensures Last(longer).calls >= Last(run).calls && Last(longer).answers >= Last(run).answers
  {
    var standing := Standing(term + 1);
    Stands(term);
    TrioSet(a, b, Rival(term), standing);
    longer := Acted(run, Trio(a, b, Rival(term)), C, Timeout, standing);
    TrioSet(a, b, standing, Rival(term + 1));
    longer := Acted(longer, Trio(a, b, standing), C, VotesCounted([None, None]), Rival(term + 1));
  }

  lemma Asking(data: Bytes) returns (run: Run)
    ensures At(run, Trio(Writer(data), Voter(), Rival(0)))
    ensures Packet(B, AppendCall(Appended(data))) in Last(run).calls
    ensures Packet(C, AppendCall(Appended(data))) in Last(run).calls
  {
    run := Elected();
    Asks(data);
    Asked(data);
    TrioSet(Winner(), Voter(), Rival(0), Writer(data));
    run := Acted(run, Trio(Winner(), Voter(), Rival(0)), A, ClientWrite(data), Writer(data));
  }

  lemma Acknowledged(data: Bytes) returns (run: Run)
    ensures At(run, Trio(Writer(data), Keeper(data), Rival(0)))
    ensures Packet(C, AppendCall(Appended(data))) in Last(run).calls
    ensures Answer(B, AppendCall(Appended(data)), Replies()[0].value) in Last(run).answers
  {
    run := Asking(data);
    Answers(data);
    TrioSet(Writer(data), Voter(), Rival(0), Keeper(data));
    var act := Deliver(AppendCall(Appended(data)), false);
    run := Acted(run, Trio(Writer(data), Voter(), Rival(0)), B, act, Keeper(data));
  }

  /** One peer keeps the write, and the other, two terms ahead by now, refuses it. */
  lemma Refused(data: Bytes) returns (run: Run)
    ensures At(run, Trio(Writer(data), Keeper(data), Rival(2)))
    ensures Answer(B, AppendCall(Appended(data)), Replies()[0].value) in Last(run).answers
    ensures Answer(C, AppendCall(Appended(data)), Replies()[1].value) in Last(run).answers
  {
    run := Acknowledged(data);
    run := Stood(run, Writer(data), Keeper(data), 0);
    run := Stood(run, Writer(data), Keeper(data), 1);
    Answers(data);
    TrioSet(Writer(data), Keeper(data), Rival(2), Rival(2));
    var act := Deliver(AppendCall(Appended(data)), false);
    run := Acted(run, Trio(Writer(data), Keeper(data), Rival(2)), C, act, Rival(2));
  }

  /** A run that reports a write and deposes the writer in the same step. */
  ghost predicate Deposed(run: Run, i: nat, index: nat) {
    && UncompactedRun(run) && i < |run.events| && ReportsWrite(run.states[i], run.events[i], A, index)
    && run.states[i].nodes.Keys == run.states[i + 1].nodes.Keys == {A, B, C}
    && run.states[i].nodes[A].role == Leader && run.states[i + 1].nodes[A].role == Follower
    && run.states[i + 1].nodes[A].term > run.states[i].nodes[A].term
  }

  lemma Reported(data: Bytes, run: Run, longer: Run, b: NodeState)
    requires At(run, Trio(Writer(data), Keeper(data), Rival(2)))
    requires CanAct(Last(run), A, WriteCounted(Replies(), false))
    requires b == Step(Writer(data), WriteCounted(Replies(), false))
    requires At(longer, Trio(b, Keeper(data), Rival(2)))
    requires longer.events == run.events + [Act(A, WriteCounted(Replies(), false))]
    requires longer.states == run.states + [Last(longer)]
    ensures Deposed(longer, |run.events|, 1)
  {
    var i := |run.events|;
    assert longer.states[i] == Last(run) && longer.events[i] == Act(A, WriteCounted(Replies(), false));
    Counts(data);
    assert longer.states[i + 1] == Last(longer);
  }

  /** A write is reported among three members, acknowledged by one peer, by a leader that steps down for the other's
      higher term as it counts. */
  lemma WritesAreReported(data: Bytes)
    ensures exists run: Run, i, index :: Deposed(run, i, index)
  {
    var act := WriteCounted(Replies(), false);
    var b := Step(Writer(data), act);
    var run := Refused(data);
    Counts(data);
    TrioSet(Writer(data), Keeper(data), Rival(2), b);
    var longer := Acted(run, Trio(Writer(data), Keeper(data), Rival(2)), A, act, b);
    Reported(data, run, longer, b);
  }
}
