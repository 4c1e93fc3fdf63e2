/** Snapshots: whatever a node has compacted away is in the snapshot it has on disk, through every crash, and a leader
    compacts at every hundredth commit. */
module Coverage {
  import opened Bytes
  import opened Log
  import opened NodeModel
  import opened Cluster
  import Theorems

  /** The snapshot reaches at least as far as the log has been compacted, and agrees with it if it reaches no
      further. */
  ghost predicate Covers(snapshot: Option<Snapshot>, log: Log) {
    log.snapshotIndex > 0 ==>
      && snapshot.Some? && snapshot.value.lastIndex >= log.snapshotIndex
      && (snapshot.value.lastIndex == log.snapshotIndex ==> snapshot.value.lastTerm == log.snapshotTerm)
  }

  ghost predicate Sound(s: NodeState) {
    && Covers(s.snapshot, s.log)
    && (s.phase.Replicating? ==> s.phase.upTo == s.log.LastIndex())
  }

  ghost predicate AllCover(ds: seq<Durable>) {
    forall i :: 0 <= i < |ds| ==> Covers(ds[i].snapshot, ds[i].log)
  }

  // ---- Steps ----

  lemma {:induction false} MergeKeepsMarker(log: Log, entries: seq<LogEntry>)
    ensures Merge(log, entries).snapshotIndex == log.snapshotIndex
    ensures Merge(log, entries).snapshotTerm == log.snapshotTerm
    ensures forall w :: w in MergeWrites(log, entries) ==>
              w.snapshotIndex == log.snapshotIndex && w.snapshotTerm == log.snapshotTerm
    decreases |entries|
  {
    if entries != [] {
      MergeKeepsMarker(MergeOne(log, entries[0]), entries[1..]);
    }
  }

  lemma AppendCovers(s: NodeState, req: AppendRequest)
    requires Covers(s.snapshot, s.log)
    ensures var n := OnAppendEntries(s, req).0; Covers(n.snapshot, n.log)
    ensures AllCover(AppendWrites(s, req))
  {
    MergeKeepsMarker(s.log, req.entries);
    LogsCover(s, MergeWrites(s.log, req.entries));
  }

  lemma LogsCover(s: NodeState, logs: seq<Log>)
    requires Covers(s.snapshot, s.log)
    requires forall w :: w in logs ==>
               w.snapshotIndex == s.log.snapshotIndex && w.snapshotTerm == s.log.snapshotTerm
    ensures forall f: NodeState :: f.snapshot == s.snapshot ==> AllCover(WithLogs(f, logs))
  {}

  lemma VoteCovers(s: NodeState, req: VoteRequest)
    requires Covers(s.snapshot, s.log)
    ensures var n := OnRequestVote(s, req).0; Covers(n.snapshot, n.log)
    ensures AllCover(VoteWrites(s, req))
  {}

  lemma InstallCovers(s: NodeState, req: InstallRequest, saved: bool)
    requires Covers(s.snapshot, s.log)
    ensures var n := OnInstallSnapshot(s, req, saved).0; Covers(n.snapshot, n.log)
    ensures AllCover(InstallWrites(s, req, saved))
  {}

  lemma SnapshotCovers(s: NodeState, saved: bool)
    requires Covers(s.snapshot, s.log) && s.commitIndex == s.log.LastIndex()
    ensures var n := TakeSnapshot(s, saved); Covers(n.snapshot, n.log)
    ensures AllCover(SnapshotWrites(s, saved))
  {}

  lemma CountCovers(s: NodeState, results: seq<Option<Response>>, saved: bool)
    requires Sound(s) && s.phase.Replicating? && |results| == |s.config.peers|
    ensures var n := FinishWrite(s, s.phase.upTo, results, saved).0; Covers(n.snapshot, n.log)
    ensures AllCover(FinishWrites(s, s.phase.upTo, results, saved))
  {
    CountRepliesEffect(s, results, s.phase.upTo);
    var n := CountReplies(s, results, s.phase.upTo).node;
    SnapshotCovers(n.(phase := Idle, commitIndex := s.phase.upTo, sinceSnapshot := n.sinceSnapshot + 1), saved);
  }

  lemma ElectionCovers(s: NodeState, votes: seq<Option<VoteResponse>>)
    requires Covers(s.snapshot, s.log)
    ensures var n := FinishElection(s, votes); Covers(n.snapshot, n.log)
    ensures AllCover(CountedWrites(s, FinishElection(s, votes)))
  {
    CountVotesEffect(s, votes, 0, 1);
  }

  lemma StepCovers(a: NodeState, act: Action)
    requires Sound(a) && Ready(a, act)
    ensures Covers(Step(a, act).snapshot, Step(a, act).log) && AllCover(Writes(a, act))
  {
    match act
    case Deliver(VoteCall(vote), _) => VoteCovers(a, vote);
    case Deliver(AppendCall(append), _) => AppendCovers(a, append);
    case Deliver(InstallCall(install), saved) => InstallCovers(a, install, saved);
    case VotesCounted(votes) => ElectionCovers(a, votes);
    case WriteCounted(results, saved) => CountCovers(a, results, saved);
    case BeatsCounted(beats) => CountBeatsEffect(a, beats, 0);
    case _ =>
  }

  // ---- Runs ----

  lemma RoundIsLast(run: Run, i: nat, n: NodeId)
    requires IsRun(run) && i < |run.states| && n in run.states[i].nodes
    ensures run.states[i].nodes[n].phase.Replicating? ==>
              run.states[i].nodes[n].phase.upTo == run.states[i].nodes[n].log.LastIndex()
  {
    if run.states[i].nodes[n].phase.Replicating? {
      var _, _ := Theorems.RoundHasItsData(run, i, n);
    }
  }

  lemma EventCovers(s: Cluster, e: Event, n: NodeId)
    requires Enabled(s, e) && n in s.nodes && Sound(s.nodes[n])
    ensures Covers(Apply(s, e).nodes[n].snapshot, Apply(s, e).nodes[n].log)
  {
    if e.node == n && !e.Crash? {
      StepCovers(s.nodes[n], e.action);
    }
  }

  lemma NodesStay(s: Cluster, e: Event)
    requires Enabled(s, e)
    ensures Apply(s, e).nodes.Keys == s.nodes.Keys
  {}

  /** In every run, compaction, installed snapshots and crashes between any two writes included, each node has a
      snapshot of at least what its log no longer holds. */
  lemma {:induction false} SnapshotsCoverLogs(run: Run, i: nat, n: NodeId)
    requires IsRun(run) && i < |run.states| && n in run.states[i].nodes
    ensures Covers(run.states[i].nodes[n].snapshot, run.states[i].nodes[n].log)
    decreases i
  {
    if i > 0 {
      assert StepOk(run, i - 1);
      NodesStay(run.states[i - 1], run.events[i - 1]);
      SnapshotsCoverLogs(run, i - 1, n);
      RoundIsLast(run, i - 1, n);
      EventCovers(run.states[i - 1], run.events[i - 1], n);
    }
  }

  /** So in a run a peer is sent the snapshot exactly when its next entry has been compacted away. */
  lemma SnapshotIsThere(run: Run, i: nat, n: NodeId, peer: NodeId, upTo: nat)
    requires IsRun(run) && i < |run.states| && n in run.states[i].nodes
    ensures var s := run.states[i].nodes[n];
            s.log.snapshotIndex > 0 ==>
              (BuildRequest(s, peer, upTo).InstallCall? <==> s.NextFor(peer, upTo) <= s.log.snapshotIndex)
  {
    SnapshotsCoverLogs(run, i, n);
  }

  // ---- Installing one ----

  /** A snapshot is acknowledged exactly in a term that is not over, by a node that is past it already or could save
      it. */
  lemma InstallAcknowledged(s: NodeState, req: InstallRequest, saved: bool)
    ensures OnInstallSnapshot(s, req, saved).1.success
            <==> req.term >= s.term && (req.snapshot.lastIndex <= s.log.snapshotIndex || saved)
  {}

  /** An effective installation leaves the node with that snapshot, a log that starts just behind it, and the count of
      commits since the last snapshot at its start. One that is not effective changes nothing but who leads. */
  lemma InstallStartsOver(s: NodeState, req: InstallRequest, saved: bool)
    requires req.term >= s.term
    ensures var n := OnInstallSnapshot(s, req, saved).0;
            if req.snapshot.lastIndex > s.log.snapshotIndex && saved
            then && n.snapshot == Some(req.snapshot) && n.sinceSnapshot == 0
                 && n.log.snapshotIndex == req.snapshot.lastIndex
                 && n.log.TermAt(req.snapshot.lastIndex) == Some(req.snapshot.lastTerm)
                 && (forall i: nat :: i < req.snapshot.lastIndex ==> n.log.TermAt(i) == None)
            else n.log == s.log && n.snapshot == s.snapshot && n.commitIndex == s.commitIndex
                 && n.sinceSnapshot == s.sinceSnapshot
  {}

  // ---- Every hundredth commit ----

  /** Node `b` is `a` after a committed write with a snapshot that could be saved. */
  ghost predicate Commits(a: NodeState, b: NodeState) {
    && a.log.Valid() && a.phase.Replicating? && a.phase.upTo == a.log.LastIndex() > a.log.snapshotIndex
    && exists results: seq<Option<Response>> ::
         |results| == |a.config.peers| && FinishWrite(a, a.phase.upTo, results, true) == (b, Committed(a.phase.upTo))
  }

  lemma SnapshotAtEnd(m: NodeState)
    requires m.log.Valid() && m.commitIndex == m.log.LastIndex() > m.log.snapshotIndex
    ensures var b := TakeSnapshot(m, true);
            && b == m.(log := Log(m.commitIndex, m.log.LastTerm(), []), snapshot := b.snapshot, sinceSnapshot := 0)
            && b.snapshot.Some? && b.snapshot.value.lastIndex == m.commitIndex
  {}

  lemma CommittedFrom(a: NodeState, results: seq<Option<Response>>) returns (m: NodeState)
    requires a.phase.Replicating? && |results| == |a.config.peers|
    requires FinishWrite(a, a.phase.upTo, results, true).1 == Committed(a.phase.upTo)
    ensures m.log == a.log && m.snapshot == a.snapshot && m.commitIndex == a.phase.upTo && m.phase.Idle?
    ensures m.sinceSnapshot == a.sinceSnapshot + 1
    ensures FinishWrite(a, a.phase.upTo, results, true).0
            == if m.sinceSnapshot >= 100 then TakeSnapshot(m, true) else m
  {
    CountRepliesEffect(a, results, a.phase.upTo);
    var n := CountReplies(a, results, a.phase.upTo).node;
    m := n.(phase := Idle).(commitIndex := a.phase.upTo, sinceSnapshot := n.sinceSnapshot + 1);
  }

  /** A committed write either compacts the log up to itself and starts the count again, at the hundredth since the last
      snapshot, or just counts. */
  lemma CommitCounts(a: NodeState, b: NodeState)
    requires Commits(a, b)
    ensures b.commitIndex == a.phase.upTo && b.log.LastIndex() == a.log.LastIndex() && b.phase.Idle?
    ensures if a.sinceSnapshot + 1 >= 100
            then b.sinceSnapshot == 0 && b.log == Log(b.commitIndex, a.log.LastTerm(), [])
                 && b.snapshot.Some? && b.snapshot.value.lastIndex == b.commitIndex
            else b.sinceSnapshot == a.sinceSnapshot + 1 && b.log == a.log && b.snapshot == a.snapshot
  {
    var results: seq<Option<Response>> :|
      |results| == |a.config.peers| && FinishWrite(a, a.phase.upTo, results, true) == (b, Committed(a.phase.upTo));
    var m := CommittedFrom(a, results);
    SnapshotAtEnd(m);
  }

  /** The i-th of a series of commits, between which the count is left alone. */
  ghost predicate InSeries(before: seq<NodeState>, after: seq<NodeState>, i: nat)
    requires i < |before| == |after|
  {
    Commits(before[i], after[i]) && before[i].sinceSnapshot == if i == 0 then 0 else after[i - 1].sinceSnapshot
  }

  ghost predicate Series(before: seq<NodeState>, after: seq<NodeState>) {
    && |before| == |after|
    && forall i {:trigger InSeries(before, after, i)} :: 0 <= i < |before| ==> InSeries(before, after, i)
  }

  lemma {:induction false} CountAt(before: seq<NodeState>, after: seq<NodeState>, i: nat)
    requires Series(before, after) && i < |before|
    ensures before[i].sinceSnapshot == i % 100
    decreases i
  {
    assert InSeries(before, after, i);
    if i > 0 {
      CountAt(before, after, i - 1);
      assert InSeries(before, after, i - 1);
      CommitCounts(before[i - 1], after[i - 1]);
      Wraps(i - 1);
    }
  }

  lemma Wraps(i: nat)
    ensures (i + 1) % 100 == if i % 100 + 1 >= 100 then 0 else i % 100 + 1
  {}

  /** The log is compacted at exactly every hundredth commit, and then holds no entry at all. */
  lemma {:induction false} EveryHundredthCompacts(before: seq<NodeState>, after: seq<NodeState>, i: nat)
    requires Series(before, after) && i < |before|
    ensures after[i].log != before[i].log <==> (i + 1) % 100 == 0
    ensures (i + 1) % 100 == 0 ==> after[i].log.entries == [] && after[i].log.snapshotIndex == after[i].commitIndex
  {
    CountAt(before, after, i);
    assert InSeries(before, after, i);
    HundredthCompacts(before[i], after[i]);
    Wraps(i);
  }

  lemma HundredthCompacts(a: NodeState, b: NodeState)
    requires Commits(a, b)
    ensures b.log != a.log <==> a.sinceSnapshot + 1 >= 100
    ensures a.sinceSnapshot + 1 >= 100 ==> b.log.entries == [] && b.log.snapshotIndex == b.commitIndex
  {
    CommitCounts(a, b);
  }
}
