/** Fast backtracking: how many rejected rounds a leader needs to find where a follower's log meets its own. */
module Backtracking {
  import opened Bytes
  import opened Log
  import opened NodeModel

  /** The distinct terms among the first `n` entries. */
  function Terms(entries: seq<LogEntry>, n: nat): set<nat>
    requires n <= |entries|
  {
    set i | 0 <= i < n :: entries[i].term
  }

  /** One round between a leader and a follower of at most its term, as `replicate_to_peers` runs it:
      the follower's answer to what the leader builds, and the leader's next index after it. */
  function Round(leader: NodeState, follower: NodeState, peer: NodeId, upTo: nat): (AppendResponse, nat)
    requires peer in leader.nextIndex
  {
    var resp := OnAppendEntries(follower, BuildAppend(leader, peer, upTo)).1;
    (resp, TakeAppendReply(leader, peer, resp, upTo).NextFor(peer, upTo))
  }

  /** Neither side is compacted, the follower is not ahead in terms, and the next index is within reach. */
  ghost predicate Paired(leader: NodeState, follower: NodeState, peer: NodeId) {
    && leader.log.Valid() && leader.log.snapshotIndex == 0
    && follower.log.Valid() && follower.log.snapshotIndex == 0
    && follower.term <= leader.term
    && peer in leader.nextIndex && 1 <= leader.nextIndex[peer] <= leader.log.LastIndex() + 1
  }

  /** How far the follower's log can still conflict at `prev`: one round if it is too short, and one per term
      among the entries up to `prev`. */
  function Potential(log: Log, prev: nat): nat
    requires log.snapshotIndex == 0
  {
    if prev > log.LastIndex() then 1 + |Terms(log.entries, |log.entries|)| else |Terms(log.entries, prev)|
  }

  lemma TermsShrink(entries: seq<LogEntry>, m: nat, n: nat, gone: nat)
    requires m <= n <= |entries|
    requires gone in Terms(entries, n) && gone !in Terms(entries, m)
    ensures |Terms(entries, m)| < |Terms(entries, n)|
  {
    var small, large := Terms(entries, m), Terms(entries, n);
    assert small + {gone} <= large;
    assert large == (small + {gone}) + (large - small - {gone});
  }

  /** A failed check hints at an index that lies strictly lower and from which less can go wrong. */
  lemma HintMakesProgress(log: Log, prev: nat, prevTerm: nat)
    requires log.Valid() && log.snapshotIndex == 0
    requires Conflict(log, prev, prevTerm).Some?
    ensures var next := Conflict(log, prev, prevTerm).value.0;
            1 <= next <= prev && Potential(log, next - 1) < Potential(log, prev)
  {
    if log.TermAt(prev).Some? {
      var t := log.TermAt(prev).value;
      FirstIndexIsLeast(log, t);
      var first := log.FirstIndexOfTerm(t).value;
      assert log.entries[prev - 1].term == t;
      forall i | 0 <= i < first - 1
        ensures log.entries[i].term != t
      {
        assert log.TermAt(i + 1) != Some(t);
      }
      TermsShrink(log.entries, first - 1, prev, t);
    }
  }

  /** A rejected round leaves the follower's log alone, lowers the next index, and uses up potential. */
  lemma RejectedRound(leader: NodeState, follower: NodeState, peer: NodeId, upTo: nat)
    requires Paired(leader, follower, peer)
    requires !Round(leader, follower, peer, upTo).0.success
    ensures OnAppendEntries(follower, BuildAppend(leader, peer, upTo)).0.log == follower.log
    ensures var next := Round(leader, follower, peer, upTo).1;
            && 1 <= next < leader.nextIndex[peer]
            && Potential(follower.log, next - 1) < Potential(follower.log, leader.nextIndex[peer] - 1)
  {
    var req := BuildAppend(leader, peer, upTo);
    HintMakesProgress(follower.log, req.prevLogIndex, req.prevLogTerm);
  }

  /** At the start of the log there is nothing left to conflict: the round is accepted. */
  lemma FirstIndexIsAccepted(leader: NodeState, follower: NodeState, peer: NodeId, upTo: nat)
    requires Paired(leader, follower, peer) && leader.nextIndex[peer] == 1
    ensures Round(leader, follower, peer, upTo).0.success
  {}

  /** The states of leader and follower at the start of each of a series of rejected rounds. In between, the leader
      may append, and both may do whatever leaves the follower's log and the next index as the round left them. */
  ghost predicate Rejections(leaders: seq<NodeState>, followers: seq<NodeState>, peer: NodeId, upTo: seq<nat>) {
    && |leaders| == |followers| == |upTo|
    && (forall r :: 0 <= r < |leaders| ==> Paired(leaders[r], followers[r], peer))
    && (forall r :: 0 <= r < |leaders| ==> !Round(leaders[r], followers[r], peer, upTo[r]).0.success)
    && (forall r :: 0 < r < |leaders| ==>
          && followers[r].log == followers[0].log
          && leaders[r].nextIndex[peer] == Round(leaders[r - 1], followers[r - 1], peer, upTo[r - 1]).1)
  }

  /** What can still go wrong with the follower's log at the start of the r-th round. */
  function PotentialAt(leaders: seq<NodeState>, followers: seq<NodeState>, peer: NodeId, r: nat): nat
    requires r < |leaders| == |followers| && peer in leaders[r].nextIndex && leaders[r].nextIndex[peer] >= 1
    requires followers[r].log.snapshotIndex == 0
  {
    Potential(followers[r].log, leaders[r].nextIndex[peer] - 1)
  }

  lemma RejectionUsesPotential(
    leaders: seq<NodeState>, followers: seq<NodeState>, peer: NodeId, upTo: seq<nat>, r: nat)
    requires Rejections(leaders, followers, peer, upTo) && 0 < r < |leaders|
    ensures PotentialAt(leaders, followers, peer, r) < PotentialAt(leaders, followers, peer, r - 1)
  {
    assert Paired(leaders[r], followers[r], peer) && Paired(leaders[r - 1], followers[r - 1], peer);
    assert followers[r].log == followers[0].log == followers[r - 1].log;
    RejectedRound(leaders[r - 1], followers[r - 1], peer, upTo[r - 1]);
  }

  lemma {:induction false} RejectionsUsePotential(
    leaders: seq<NodeState>, followers: seq<NodeState>, peer: NodeId, upTo: seq<nat>, r: nat)
    requires Rejections(leaders, followers, peer, upTo) && r < |leaders|
    ensures Paired(leaders[r], followers[r], peer) && Paired(leaders[0], followers[0], peer)
    ensures PotentialAt(leaders, followers, peer, r) + r <= PotentialAt(leaders, followers, peer, 0)
  {
    if r > 0 {
      RejectionsUsePotential(leaders, followers, peer, upTo, r - 1);
      RejectionUsesPotential(leaders, followers, peer, upTo, r);
    }
  }

  /** Backtracking bound: there are at most one more rejected rounds than distinct terms in the follower's log. */
  lemma BacktrackingBound(leaders: seq<NodeState>, followers: seq<NodeState>, peer: NodeId, upTo: seq<nat>)
    requires Rejections(leaders, followers, peer, upTo) && leaders != []
    ensures var log := followers[0].log.entries;
            |leaders| <= 1 + |Terms(log, |log|)|
  {
    var last := |leaders| - 1;
    RejectionsUsePotential(leaders, followers, peer, upTo, last);
    RejectedRound(leaders[last], followers[last], peer, upTo[last]);
    PotentialBounded(followers[0].log, leaders[0].nextIndex[peer] - 1);
  }

  lemma PotentialBounded(log: Log, prev: nat)
    requires log.snapshotIndex == 0
    ensures Potential(log, prev) <= 1 + |Terms(log.entries, |log.entries|)|
  {
    if prev <= log.LastIndex() {
      var small, large := Terms(log.entries, prev), Terms(log.entries, |log.entries|);
      assert small <= large;
      assert large == small + (large - small);
    }
  }

  const PEER: NodeId := [2]

  /** A leader with two entries of term 2. */
  function Ahead(next: nat): NodeState {
    Restart(Config([1], [PEER]), FRESH_DISK)
      .(term := 3, log := Log(0, 0, [LogEntry(2, 1, []), LogEntry(2, 2, [])]), nextIndex := map[PEER := next])
  }

  /** A follower with one of term 1. */
  function Behind(): NodeState {
    Restart(Config([1], [PEER]), FRESH_DISK).(term := 3, log := Log(0, 0, [LogEntry(1, 1, [])]))
  }

  lemma PairedAhead()
    ensures Paired(Ahead(3), Behind(), PEER) && Paired(Ahead(2), Behind(), PEER)
    ensures Ahead(2).nextIndex[PEER] == 2 && |Behind().log.entries| == 1
  {}

  lemma FirstRound()
    ensures Round(Ahead(3), Behind(), PEER, 2) == (AppendResponse(3, false, 2, 0), 2)
  {
    assert BuildAppend(Ahead(3), PEER, 2).prevLogIndex == 2;
    assert Behind().log.TermAt(2) == None;
  }

  lemma SecondRound()
    ensures !Round(Ahead(2), Behind(), PEER, 2).0.success
  {
    var req := BuildAppend(Ahead(2), PEER, 2);
    assert req.prevLogIndex == 1 && req.prevLogTerm == 2;
    assert Behind().log.TermAt(1) == Some(1);
  }

  lemma TwoRejections(l0: NodeState, l1: NodeState, f: NodeState, peer: NodeId, upTo: nat)
    requires Paired(l0, f, peer) && Paired(l1, f, peer)
    requires !Round(l0, f, peer, upTo).0.success && !Round(l1, f, peer, upTo).0.success
    requires l1.nextIndex[peer] == Round(l0, f, peer, upTo).1
    ensures Rejections([l0, l1], [f, f], peer, [upTo, upTo])
  {
    var leaders, followers := [l0, l1], [f, f];
    forall r | 0 <= r < 2
      ensures Paired(leaders[r], followers[r], peer)
      ensures !Round(leaders[r], followers[r], peer, [upTo, upTo][r]).0.success
    {
      assert r == 0 || r == 1;
    }
  }

  lemma BoundMetBy(l0: NodeState, l1: NodeState, f: NodeState, peer: NodeId, upTo: nat)
    requires Paired(l0, f, peer) && Paired(l1, f, peer) && |f.log.entries| == 1
    requires !Round(l0, f, peer, upTo).0.success && !Round(l1, f, peer, upTo).0.success
    requires l1.nextIndex[peer] == Round(l0, f, peer, upTo).1
    ensures exists leaders: seq<NodeState>, followers: seq<NodeState>, peer: NodeId, upTo: seq<nat> ::
              && Rejections(leaders, followers, peer, upTo)
              && |leaders| == 2
              && |followers[0].log.entries| == 1
  {
    TwoRejections(l0, l1, f, peer, upTo);
    assert |[l0, l1]| == 2 && [f, f][0] == f;
  }

  /** The bound is met: a follower with one entry, of a term the leader lacks, and a leader that is further ahead
      take two rejected rounds. */
  lemma BoundIsMet()
    ensures exists leaders: seq<NodeState>, followers: seq<NodeState>, peer: NodeId, upTo: seq<nat> ::
              && Rejections(leaders, followers, peer, upTo)
              && |leaders| == 2
              && |followers[0].log.entries| == 1
  {
    var l0, l1, f := Ahead(3), Ahead(2), Behind();
    PairedAhead();
    FirstRound();
    SecondRound();
    assert !Round(l0, f, PEER, 2).0.success && Round(l0, f, PEER, 2).1 == 2;
    BoundMetBy(l0, l1, f, PEER, 2);
  }
}
