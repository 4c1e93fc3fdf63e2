/** Votes are granted, and elections won: exactly when. */
module Votes {
  import opened Bytes
  import opened Log
  import opened NodeModel

  // ---- One vote ----

  /** The end of log `a` comes before that of `b`: a lower last term, or the same one and fewer entries. */
  predicate EndsBefore(a: Log, b: Log) {
    a.LastTerm() < b.LastTerm() || (a.LastTerm() == b.LastTerm() && a.LastIndex() < b.LastIndex())
  }

  /** The vote request a node makes of term `t`. */
  function Ballot(s: NodeState, t: nat): VoteRequest {
    VoteRequest(t, s.config.id, s.log.LastIndex(), s.log.LastTerm())
  }

  /** What a node asks for when its election timer runs out: a vote for itself, in the next term, on its own log. */
  lemma AsksForItself(s: NodeState)
    requires s.phase.Idle? && s.role != Leader
    ensures var c := Step(s, Timeout);
            && c.phase == Electing(Ballot(s, s.term + 1)) && c.role == Candidate && c.term == s.term + 1
            && c.votedFor == Some(s.config.id) && c.log == s.log && c.commitIndex == s.commitIndex
  {}

  /** A vote is granted exactly in a term that is not over, to a candidate that has no rival for it there and whose log
      does not end before the voter's. */
  lemma VoteGranted(v: NodeState, s: NodeState, t: nat)
    ensures OnRequestVote(v, Ballot(s, t)).1.granted
            <==> && t >= v.term && !EndsBefore(s.log, v.log)
                 && (t == v.term ==> v.votedFor == None || v.votedFor == Some(s.config.id))
  {}

  /** A granted vote is cast, and asking again gets it again. */
  lemma VoteIsRepeated(v: NodeState, req: VoteRequest)
    requires OnRequestVote(v, req).1.granted
    ensures var w := OnRequestVote(v, req).0;
            && w.term == req.term && w.votedFor == Some(req.candidate) && w.log == v.log
            && OnRequestVote(w, req) == (w, OnRequestVote(v, req).1)
  {}

  /** Of any two nodes in lower terms at least one votes for the other. */
  lemma VotesCompare(a: NodeState, b: NodeState, t: nat)
    requires a.term < t && b.term < t
    ensures OnRequestVote(a, Ballot(b, t)).1.granted || OnRequestVote(b, Ballot(a, t)).1.granted
  {}

  /** Hence among any nodes in lower terms there is one for which all of them vote. */
  lemma {:induction false} SomeoneIsElectable(nodes: seq<NodeState>, t: nat) returns (k: nat)
    requires nodes != [] && forall i :: 0 <= i < |nodes| ==> nodes[i].term < t
    ensures k < |nodes| && forall i :: 0 <= i < |nodes| ==> OnRequestVote(nodes[i], Ballot(nodes[k], t)).1.granted
  {
    k := |nodes| - 1;
    if |nodes| > 1 {
      var j := SomeoneIsElectable(nodes[..k], t);
      if EndsBefore(nodes[j].log, nodes[k].log) {
        forall i | 0 <= i < |nodes|
          ensures OnRequestVote(nodes[i], Ballot(nodes[k], t)).1.granted
        {
          if i < k {
            assert OnRequestVote(nodes[..k][i], Ballot(nodes[j], t)).1.granted;
          }
        }
      } else {
        k := j;
        assert forall i :: 0 <= i < |nodes| - 1 ==> nodes[i] == nodes[..|nodes| - 1][i];
      }
    }
  }

  // ---- Counting them ----

  function Granted(results: seq<Option<VoteResponse>>, i: nat): nat
    requires i <= |results|
    decreases |results| - i
  {
    if i == |results| then 0
    else Granted(results, i + 1) + if results[i].Some? && results[i].value.granted then 1 else 0
  }

  ghost predicate NoneHigher(results: seq<Option<VoteResponse>>, term: nat) {
    forall i :: 0 <= i < |results| && results[i].Some? ==> results[i].value.term <= term
  }

  lemma {:induction false} VotesAreCounted(s: NodeState, results: seq<Option<VoteResponse>>, i: nat, votes: nat)
    requires i <= |results| && NoneHigher(results, s.term)
    ensures CountVotes(s, results, i, votes) == Count(s, votes + Granted(results, i), false)
    decreases |results| - i
  {
    if i < |results| {
      VotesAreCounted(s, results, i + 1, if results[i].Some? && results[i].value.granted then votes + 1 else votes);
    }
  }

  lemma {:induction false} HigherEndsCount(s: NodeState, results: seq<Option<VoteResponse>>, i: nat, votes: nat, k: nat)
    requires i <= k < |results| && results[k].Some? && results[k].value.term > s.term
    requires forall j :: i <= j < k && results[j].Some? ==> results[j].value.term <= s.term
    ensures CountVotes(s, results, i, votes).node == s.StepDown(results[k].value.term)
    ensures CountVotes(s, results, i, votes).steppedDown
    decreases k - i
  {
    if i < k {
      HigherEndsCount(s, results, i + 1, if results[i].Some? && results[i].value.granted then votes + 1 else votes, k);
    }
  }

  /** A candidate that hears of no higher term wins exactly with a quorum, its own vote included, and is a follower in
      the same term otherwise. */
  lemma QuorumElects(s: NodeState, results: seq<Option<VoteResponse>>)
    requires s.role == Candidate && NoneHigher(results, s.term)
    ensures var n := FinishElection(s, results);
            && n.term == s.term && n.votedFor == s.votedFor && n.log == s.log && n.phase.Idle?
            && n.role == (if 1 + Granted(results, 0) >= s.config.Quorum() then Leader else Follower)
            && n.currentLeader == if n.role == Leader then Some(s.config.id) else s.currentLeader
  {
    VotesAreCounted(s, results, 0, 1);
  }

  /** A candidate that hears of a higher term goes to the first one it hears of, as a follower that has not voted. */
  lemma HigherTermEndsElection(s: NodeState, results: seq<Option<VoteResponse>>, k: nat)
    requires k < |results| && results[k].Some? && results[k].value.term > s.term
    requires forall j :: 0 <= j < k && results[j].Some? ==> results[j].value.term <= s.term
    ensures var n := FinishElection(s, results);
            n.term == results[k].value.term && n.role == Follower && n.votedFor == None && n.phase.Idle?
  {
    HigherEndsCount(s, results, 0, 1, k);
  }

  // ---- A whole election ----

  /** What the peers that can be reached answer to a ballot. */
  function Replies(voters: seq<NodeState>, reached: seq<bool>, req: VoteRequest): (r: seq<Option<VoteResponse>>)
    requires |voters| == |reached|
    ensures |r| == |voters|
    ensures forall i :: 0 <= i < |r| ==> r[i] == if reached[i] then Some(OnRequestVote(voters[i], req).1) else None
  {
    seq(|voters|, i requires 0 <= i < |voters| => if reached[i] then Some(OnRequestVote(voters[i], req).1) else None)
  }

  /** How many of them do not have a log that ends after the candidate's. */
  function Backers(s: NodeState, voters: seq<NodeState>, reached: seq<bool>, i: nat): nat
    requires i <= |voters| == |reached|
    decreases |voters| - i
  {
    if i == |voters| then 0
    else Backers(s, voters, reached, i + 1) + if reached[i] && !EndsBefore(s.log, voters[i].log) then 1 else 0
  }

  lemma {:induction false} BackersGrant(s: NodeState, voters: seq<NodeState>, reached: seq<bool>, i: nat)
    requires i <= |voters| == |reached| && forall j :: 0 <= j < |voters| ==> voters[j].term <= s.term
    ensures Granted(Replies(voters, reached, Ballot(s, s.term + 1)), i) == Backers(s, voters, reached, i)
    decreases |voters| - i
  {
    if i < |voters| {
      BackersGrant(s, voters, reached, i + 1);
      VoteGranted(voters[i], s, s.term + 1);
    }
  }

  /** A node whose term nobody exceeds, and whose timer runs out, is elected exactly if it and the peers it reaches
      whose logs do not end after its own make a quorum. */
  lemma ElectionIsWon(s: NodeState, voters: seq<NodeState>, reached: seq<bool>)
    requires s.phase.Idle? && s.role != Leader && |voters| == |reached| == |s.config.peers|
    requires forall j :: 0 <= j < |voters| ==> voters[j].term <= s.term
    ensures var c := Step(s, Timeout);
            && c.phase == Electing(Ballot(s, s.term + 1))
            && (FinishElection(c, Replies(voters, reached, c.phase.ballot)).role == Leader
                <==> 1 + Backers(s, voters, reached, 0) >= s.config.Quorum())
  {
    var c := Step(s, Timeout);
    AsksForItself(s);
    QuorumElects(c, Replies(voters, reached, c.phase.ballot));
    BackersGrant(s, voters, reached, 0);
  }
}
