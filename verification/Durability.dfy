/** What is on disk after a step: the crash model of the cluster and the handlers agree. */
module Durability {
  import opened Bytes
  import opened Log
  import opened NodeModel

  /** The disk after the writes `ds`, the last of which leaves it as `d`. */
  ghost predicate Reaches(ds: seq<Durable>, start: Durable, d: Durable) {
    d == if ds == [] then start else ds[|ds| - 1]
  }

  lemma {:induction false} MergeReaches(s: NodeState, log: Log, entries: seq<LogEntry>)
    ensures Reaches(WithLogs(s, MergeWrites(log, entries)), s.(log := log).Disk(),
                    s.(log := Merge(log, entries)).Disk())
    decreases |entries|
  {
    if entries != [] {
      MergeReaches(s, MergeOne(log, entries[0]), entries[1..]);
    }
  }

  lemma {:induction false} CountAppendsReaches(s: NodeState, peers: seq<NodeId>, results: seq<Option<Response>>,
      i: nat, upTo: nat, acks: nat)
    requires |peers| == |results| && i <= |results|
    ensures var c := CountAppends(s, peers, results, i, upTo, acks);
            && Reaches(CountedWrites(s, c.node), s.Disk(), c.node.Disk())
            && (c.steppedDown <==> c.node.term != s.term)
    decreases |results| - i
  {
    if i < |results| {
      if !(results[i].Some? && results[i].value.AppendReply?) {
        CountAppendsReaches(s, peers, results, i + 1, upTo, acks);
      } else if results[i].value.append.term <= s.term {
        var resp := results[i].value.append;
        CountAppendsReaches(TakeAppendReply(s, peers[i], resp, upTo), peers, results, i + 1, upTo,
                            if resp.success then acks + 1 else acks);
      }
    }
  }

  lemma {:induction false} CountInstallsReaches(s: NodeState, peers: seq<NodeId>, results: seq<Option<Response>>,
      i: nat, acks: nat)
    requires |peers| == |results| && i <= |results|
    ensures Reaches(CountedWrites(s, CountInstalls(s, peers, results, i, acks).node), s.Disk(),
                    CountInstalls(s, peers, results, i, acks).node.Disk())
    decreases |results| - i
  {
    if i < |results| {
      if !(results[i].Some? && results[i].value.InstallReply?) {
        CountInstallsReaches(s, peers, results, i + 1, acks);
      } else if results[i].value.install.term <= s.term {
        var resp := results[i].value.install;
        CountInstallsReaches(TakeInstallReply(s, peers[i], resp), peers, results, i + 1,
                             if resp.success then acks + 1 else acks);
      }
    }
  }

  lemma {:induction false} CountVotesReaches(s: NodeState, results: seq<Option<VoteResponse>>, i: nat, votes: nat)
    requires i <= |results|
    ensures Reaches(CountedWrites(s, CountVotes(s, results, i, votes).node), s.Disk(),
                    CountVotes(s, results, i, votes).node.Disk())
    decreases |results| - i
  {
    if i < |results| && (results[i] == None || results[i].value.term <= s.term) {
      CountVotesReaches(s, results, i + 1,
                        if results[i].Some? && results[i].value.granted then votes + 1 else votes);
    }
  }

  lemma {:induction false} CountBeatsReaches(s: NodeState, results: seq<Option<AppendResponse>>, i: nat)
    requires i <= |results|
    ensures Reaches(CountedWrites(s, CountBeats(s, results, i)), s.Disk(), CountBeats(s, results, i).Disk())
    decreases |results| - i
  {
    if i < |results| && !(results[i].Some? && results[i].value.term > s.term) {
      CountBeatsReaches(s, results, i + 1);
    }
  }

  lemma CountRepliesReaches(s: NodeState, results: seq<Option<Response>>, upTo: nat)
    requires |s.config.peers| == |results|
    ensures Reaches(CountedWrites(s, CountReplies(s, results, upTo).node), s.Disk(),
                    CountReplies(s, results, upTo).node.Disk())
  {
    CountAppendsReaches(s, s.config.peers, results, 0, upTo, 1);
    var c := CountAppends(s, s.config.peers, results, 0, upTo, 1);
    CountInstallsReaches(c.node, s.config.peers, results, 0, c.count);
  }

  lemma SnapshotReaches(s: NodeState, saved: bool)
    ensures Reaches(SnapshotWrites(s, saved), s.Disk(), TakeSnapshot(s, saved).Disk())
  {}

  lemma FinishReaches(s: NodeState, upTo: nat, results: seq<Option<Response>>, saved: bool)
    requires |s.config.peers| == |results|
    ensures Reaches(FinishWrites(s, upTo, results, saved), s.Disk(), FinishWrite(s, upTo, results, saved).0.Disk())
  {
    CountRepliesReaches(s, results, upTo);
    var c := CountReplies(s, results, upTo);
    SnapshotReaches(c.node.(phase := Idle, commitIndex := upTo, sinceSnapshot := c.node.sinceSnapshot + 1), saved);
  }

  lemma AppendReaches(s: NodeState, req: AppendRequest)
    ensures Reaches(AppendWrites(s, req), s.Disk(), OnAppendEntries(s, req).0.Disk())
  {
    if req.term >= s.term {
      var f := Follow(s, req.term, req.leader);
      MergeReaches(f, f.log, req.entries);
    }
  }

  /** No step changes what a restart would find except by the durable writes it lists, and after the last of them the
      disk is in step with memory: a crash after a step loses nothing durable. */
  lemma StepIsDurable(s: NodeState, act: Action)
    requires Ready(s, act)
    ensures Reaches(Writes(s, act), s.Disk(), Step(s, act).Disk())
  {
    match act {
      case Timeout =>
      case ClientWrite(data) =>
      case Deliver(req, saved) =>
        if req.AppendCall? {
          AppendReaches(s, req.append);
        }
      case VotesCounted(votes) =>
        CountVotesReaches(s, votes, 0, 1);
      case WriteCounted(results, saved) =>
        FinishReaches(s, s.phase.upTo, results, saved);
      case BeatsCounted(beats) =>
        CountBeatsReaches(s, beats, 0);
    }
  }
}
