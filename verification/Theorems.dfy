/** The Raft safety theorems, over whole runs in which no node compacts its log or installs a snapshot. */
module Theorems {
  import opened Bytes
  import opened Log
  import opened NodeModel
  import opened Cluster
  import opened Elections
  import opened Ledger
  import opened Coupling
  import opened Steps
  import opened Safety

  ghost predicate UncompactedRun(run: Run) {
    IsRun(run) && forall k :: 0 <= k < |run.states| ==> Uncompacted(run.states[k])
  }

  function Entries(s: Cluster, n: NodeId): seq<LogEntry>
    requires n in s.nodes
  {
    s.nodes[n].log.entries
  }

  // ---- Histories of a run ----

  lemma InitCoupled(s: Cluster, t: Tally, l: Ledger)
    requires Init(s) && t == Tally(Everywhere(s.nodes.Keys, 0), map[], map[])
    requires l == Ledger(Everywhere(s.nodes.Keys, []), map[], map[], {}, {})
    ensures Coupled(s, t, l)
  {
    assert TallyOk(t);
    assert LedgerOk(t, l);
    forall n | n in s.nodes
      ensures NodeCoupled(t, l, n, s.nodes[n])
    {
      assert s.nodes[n] == Restart(s.nodes[n].config, FRESH_DISK);
    }
  }

  lemma InitKnown(s: Cluster) returns (t: Tally, l: Ledger)
    requires Init(s)
    ensures Known(s, t, l)
  {
    t := Tally(Everywhere(s.nodes.Keys, 0), map[], map[]);
    l := Ledger(Everywhere(s.nodes.Keys, []), map[], map[], {}, {});
    InitTallied(s);
    InitCoupled(s, t, l);
  }

  lemma RunTurn(run: Run, k: nat, t: Tally, l: Ledger) returns (u: Tally, m: Ledger)
    requires UncompactedRun(run) && 0 < k < |run.states| && Known(run.states[k - 1], t, l)
    ensures Known(run.states[k], u, m) && Grows(l, m)
    ensures WriteOnRecord(run.states[k - 1], run.events[k - 1], m)
  {
    assert StepOk(run, k - 1);
    u, m := StepKeepsKnown(run.states[k - 1], run.events[k - 1], run.states[k], t, l);
  }

  /** The histories of a run up to its k-th state. */
  lemma {:induction false} HistoryAt(run: Run, k: nat) returns (t: Tally, l: Ledger)
    requires UncompactedRun(run) && k < |run.states|
    ensures Known(run.states[k], t, l)
  {
    if k == 0 {
      t, l := InitKnown(run.states[0]);
    } else {
      t, l := HistoryAt(run, k - 1);
      t, l := RunTurn(run, k, t, l);
    }
  }

  lemma GrowsAddsUp(l: Ledger, m: Ledger, k: Ledger)
    requires Grows(l, m) && Grows(m, k)
    ensures Grows(l, k)
  {}

  lemma RecordStays(s: Cluster, e: Event, l: Ledger, m: Ledger)
    requires WriteOnRecord(s, e, l) && Grows(l, m)
    ensures WriteOnRecord(s, e, m)
  {}

  /** Histories from one moment of a run on to a later one, with the write reported at the first. */
  lemma {:induction false} HistoryAlong(run: Run, i: nat, j: nat, t: Tally, l: Ledger) returns (u: Tally, m: Ledger)
    requires UncompactedRun(run) && i < j < |run.states|
    requires Known(run.states[i], t, l)
    ensures Known(run.states[j], u, m) && Grows(l, m)
    ensures WriteOnRecord(run.states[i], run.events[i], m)
    decreases j
  {
    if i == j - 1 {
      u, m := RunTurn(run, j, t, l);
    } else {
      var v, k := HistoryAlong(run, i, j - 1, t, l);
      u, m := RunTurn(run, j, v, k);
      GrowsAddsUp(l, k, m);
      RecordStays(run.states[i], run.events[i], k, m);
    }
  }

  /** Histories at two moments of a run. */
  lemma TwoHistories(run: Run, i: nat, j: nat) returns (t: Tally, l: Ledger, u: Tally, m: Ledger)
    requires UncompactedRun(run) && i <= j < |run.states|
    ensures Known(run.states[i], t, l) && Known(run.states[j], u, m) && Grows(l, m)
    ensures i < j ==> WriteOnRecord(run.states[i], run.events[i], m)
  {
    t, l := HistoryAt(run, i);
    if i < j {
      u, m := HistoryAlong(run, i, j, t, l);
    } else {
      u, m := t, l;
    }
  }

  /** What the history says of one node. */
  lemma NodeFacts(s: Cluster, t: Tally, l: Ledger, n: NodeId)
    requires Known(s, t, l) && n in s.nodes
    ensures Consistent(t, l)
    ensures s.nodes[n].log == Log(0, 0, Entries(s, n)) && Traced(l, Entries(s, n))
    ensures CommittedPrefix(l, Entries(s, n), s.nodes[n].commitIndex, s.nodes[n].term)
    ensures s.nodes[n].role == Leader ==>
              s.nodes[n].term in l.reigns && Entries(s, n) == l.reigns[s.nodes[n].term].log
    ensures RoundOk(l, n, s.nodes[n])
  {
    KnownLocal(s, t, l, n);
    assert LogOk(t, l, n);
  }

  // ---- The theorems ----

  lemma MatchInOrder(run: Run, i: nat, j: nat, m: NodeId, n: NodeId, index: nat)
    requires UncompactedRun(run) && i <= j < |run.states|
    requires m in run.states[i].nodes && n in run.states[j].nodes
    requires run.states[i].nodes[m].log.TermAt(index).Some?
    requires run.states[i].nodes[m].log.TermAt(index) == run.states[j].nodes[n].log.TermAt(index)
    ensures Agree(Entries(run.states[i], m), Entries(run.states[j], n), index)
  {
    var t, l, u, k := TwoHistories(run, i, j);
    NodeFacts(run.states[i], t, l, m);
    NodeFacts(run.states[j], u, k, n);
    TermsMatch(l, k, Entries(run.states[i], m), Entries(run.states[j], n), index);
  }

  lemma TermsMatch(l: Ledger, k: Ledger, a: seq<LogEntry>, b: seq<LogEntry>, index: nat)
    requires Grows(l, k) && Traced(l, a) && Traced(k, b)
    requires Log(0, 0, a).TermAt(index).Some? && Log(0, 0, a).TermAt(index) == Log(0, 0, b).TermAt(index)
    ensures Agree(a, b, index)
  {
    GrowsKeepsTraced(l, k, a);
    TracedLogsMatch(k, a, b, index - 1);
  }

  /** Log matching: if two logs, of any nodes at any moments, hold the same term at an index, they are identical
      up to that index. In particular term and index determine the data. */
  lemma LogMatching(run: Run, i: nat, j: nat, m: NodeId, n: NodeId, index: nat)
    requires UncompactedRun(run) && i < |run.states| && j < |run.states|
    requires m in run.states[i].nodes && n in run.states[j].nodes
    requires run.states[i].nodes[m].log.TermAt(index).Some?
    requires run.states[i].nodes[m].log.TermAt(index) == run.states[j].nodes[n].log.TermAt(index)
    ensures Agree(Entries(run.states[i], m), Entries(run.states[j], n), index)
  {
    if i <= j {
      MatchInOrder(run, i, j, m, n, index);
    } else {
      MatchInOrder(run, j, i, n, m, index);
    }
  }

  /** Entries are numbered from 1, and terms never decrease along a log. */
  lemma LogsSorted(run: Run, i: nat, n: NodeId, a: nat, b: nat)
    requires UncompactedRun(run) && i < |run.states| && n in run.states[i].nodes
    requires a <= b < |Entries(run.states[i], n)|
    ensures Entries(run.states[i], n)[a].index == a + 1
    ensures 1 <= Entries(run.states[i], n)[a].term <= Entries(run.states[i], n)[b].term
  {
    var t, l := HistoryAt(run, i);
    NodeFacts(run.states[i], t, l, n);
    TracedTermsSorted(t, l, Entries(run.states[i], n), a, b);
    LogNumberedAt(t, l, Entries(run.states[i], n), a);
  }

  lemma LogNumberedAt(t: Tally, l: Ledger, log: seq<LogEntry>, a: nat)
    requires Consistent(t, l) && Traced(l, log) && a < |log|
    ensures log[a].index == a + 1
  {
    assert TracedAt(l, log, a);
    assert ReignOk(t, l, log[a].term);
  }

  /** The leader's own part of a reported write: its log up to the reported index is that of its reign. */
  lemma ReportIsOwn(s: Cluster, e: Event, n: NodeId, index: nat, t: Tally, l: Ledger)
    requires Known(s, t, l) && ReportsWrite(s, e, n, index)
    ensures s.nodes[n].term in l.reigns && Entries(s, n) == l.reigns[s.nodes[n].term].log
    ensures 0 < index == |Entries(s, n)|
  {
    KnownLocal(s, t, l, n);
  }

  lemma RecordedCommit(s: Cluster, e: Event, n: NodeId, index: nat, m: Ledger)
    requires ReportsWrite(s, e, n, index) && WriteOnRecord(s, e, m)
    ensures Commit(s.nodes[n].term, index) in m.commits
  {}

  lemma CommitPassesOn(u: Tally, l: Ledger, m: Ledger, d: Commit, term: nat)
    requires Consistent(u, m) && Grows(l, m)
    requires d in m.commits && d.term in l.reigns && d.upTo <= |l.reigns[d.term].log|
    requires term in m.reigns && d.term <= term
    ensures Agree(l.reigns[d.term].log, m.reigns[term].log, d.upTo)
  {
    CommitReachesLeader(u, m, d, term);
  }

  /** Leader completeness: once a client write is answered with an index, every node that leads the same or a later
      term from then on holds the same entries up to that index, even if the writer had to step down as it counted. */
  lemma ReportedWritesSurvive(run: Run, i: nat, n: NodeId, index: nat, j: nat, leader: NodeId)
    requires UncompactedRun(run) && i < j < |run.states|
    requires ReportsWrite(run.states[i], run.events[i], n, index)
    requires leader in run.states[j].nodes && run.states[j].nodes[leader].role == Leader
    requires run.states[j].nodes[leader].term >= run.states[i].nodes[n].term
    ensures index > 0 && Agree(Entries(run.states[i], n), Entries(run.states[j], leader), index)
  {
    var t, l, u, m := TwoHistories(run, i, j);
    ReportIsOwn(run.states[i], run.events[i], n, index, t, l);
    RecordedCommit(run.states[i], run.events[i], n, index, m);
    NodeFacts(run.states[j], u, m, leader);
    CommitPassesOn(u, l, m, Commit(run.states[i].nodes[n].term, index), run.states[j].nodes[leader].term);
  }

  /** Two committed prefixes agree as far as both reach. */
  lemma CommitsAgree(u: Tally, m: Ledger, a: seq<LogEntry>, b: seq<LogEntry>, x: nat, y: nat, c: nat, term: nat,
      term': nat)
    requires Consistent(u, m)
    requires CommittedPrefix(m, a, x, term) && CommittedPrefix(m, b, y, term')
    requires c <= x && c <= y
    ensures Agree(a, b, c)
  {
    if c > 0 {
      var d :| Covers(m, d, a, x, term);
      var e :| Covers(m, e, b, y, term');
      if d.term <= e.term {
        CommitReachesLeader(u, m, d, e.term);
      } else {
        CommitReachesLeader(u, m, e, d.term);
      }
    }
  }

  lemma CommittedInOrder(run: Run, i: nat, j: nat, m: NodeId, n: NodeId, c: nat)
    requires UncompactedRun(run) && i <= j < |run.states|
    requires m in run.states[i].nodes && n in run.states[j].nodes
    requires c <= run.states[i].nodes[m].commitIndex && c <= run.states[j].nodes[n].commitIndex
    ensures Agree(Entries(run.states[i], m), Entries(run.states[j], n), c)
  {
    var t, l, u, k := TwoHistories(run, i, j);
    var a, b := run.states[i].nodes[m], run.states[j].nodes[n];
    NodeFacts(run.states[i], t, l, m);
    NodeFacts(run.states[j], u, k, n);
    CommittedGrows(l, k, a.log.entries, a.log.entries, a.commitIndex, a.term, a.term);
    CommitsAgree(u, k, a.log.entries, b.log.entries, a.commitIndex, b.commitIndex, c, a.term, b.term);
  }

  /** State-machine safety: at every index at or below both commit indexes, any two nodes, at any two moments of
      the run, hold the same entry. */
  lemma StateMachineSafety(run: Run, i: nat, j: nat, m: NodeId, n: NodeId, c: nat)
    requires UncompactedRun(run) && i < |run.states| && j < |run.states|
    requires m in run.states[i].nodes && n in run.states[j].nodes
    requires c <= run.states[i].nodes[m].commitIndex && c <= run.states[j].nodes[n].commitIndex
    ensures Agree(Entries(run.states[i], m), Entries(run.states[j], n), c)
  {
    if i <= j {
      CommittedInOrder(run, i, j, m, n, c);
    } else {
      CommittedInOrder(run, j, i, n, m, c);
    }
  }

  /** A commit index never points past the end of the log. */
  lemma CommitWithinLog(run: Run, i: nat, n: NodeId)
    requires UncompactedRun(run) && i < |run.states| && n in run.states[i].nodes
    ensures run.states[i].nodes[n].commitIndex <= run.states[i].nodes[n].log.LastIndex()
  {
    var t, l := HistoryAt(run, i);
    NodeFacts(run.states[i], t, l, n);
  }

  /** Whatever a request of a leader carries, it reaches at least as far as it commits. */
  lemma RequestsReachTheirCommit(run: Run, i: nat, p: Packet)
    requires UncompactedRun(run) && i < |run.states| && p in run.states[i].calls && p.req.AppendCall?
    ensures p.req.append.leaderCommit <= p.req.append.prevLogIndex + |p.req.append.entries|
  {
    var t, l := HistoryAt(run, i);
    KnownCall(run.states[i], t, l, p);
  }

  // ---- Commit indexes within one incarnation ----

  /** What `n` had committed is still in its log, and unless it crashed it still counts as committed. */
  ghost predicate CommitKept(a: NodeState, b: NodeState, crashed: bool) {
    Agree(a.log.entries, b.log.entries, a.commitIndex) && (crashed || a.commitIndex <= b.commitIndex)
  }

  /** A request makes the commit index follow the leader's, but never past the log, and so never back. */
  lemma CommitFollowsLeader(a: NodeState, r: AppendRequest)
    requires a.commitIndex <= OnAppendEntries(a, r).0.log.LastIndex()
    ensures a.commitIndex <= OnAppendEntries(a, r).0.commitIndex
  {}

  lemma OutcomeKeepsCommitted(t: Tally, l: Ledger, n: NodeId, a: NodeState, r: AppendRequest, b: NodeState,
      x: AppendResponse)
    requires Local(t, l, n, a) && AppendOutcome(l, a, r, b, x)
    ensures Agree(a.log.entries, b.log.entries, a.commitIndex) && a.commitIndex <= b.log.LastIndex()
  {
    if x.success {
      CommitSurvives(t, l, a.log.entries, b.log.entries, b.term, a.commitIndex, a.term);
    }
  }

  lemma AppendKeepsCommit(t: Tally, l: Ledger, n: NodeId, a: NodeState, r: AppendRequest)
    requires Local(t, l, n, a) && a.phase.Idle? && AppendOk(l, r)
    ensures CommitKept(a, OnAppendEntries(a, r).0, false)
  {
    AppendCases(t, l, n, a, r);
    OutcomeKeepsCommitted(t, l, n, a, r, OnAppendEntries(a, r).0, OnAppendEntries(a, r).1);
    CommitFollowsLeader(a, r);
  }

  lemma CrashKeepsCommit(t: Tally, l: Ledger, n: NodeId, a: NodeState, act: Action, k: nat)
    requires Local(t, l, n, a) && Ready(a, act) && k + 1 < |Writes(a, act)|
    requires act.Deliver? ==> !act.req.InstallCall? && (act.req.AppendCall? ==> AppendOk(l, act.req.append))
    ensures CommitKept(a, Restart(a.config, Writes(a, act)[k]), true)
  {
    var b := Restart(a.config, Writes(a, act)[k]);
    CrashCases(a, act, k);
    if !Quiet(a, b) {
      CutMergeFollows(t, l, n, a, act.req.append, b);
      CommitSurvives(t, l, a.log.entries, b.log.entries, b.term, a.commitIndex, a.term);
    }
  }

  /** Every other step only ever extends the log and the commit index. */
  lemma OtherStepsKeepCommit(t: Tally, l: Ledger, n: NodeId, a: NodeState, act: Action)
    requires NodeCoupled(t, l, n, a) && Ready(a, act)
    requires act.Deliver? ==> act.req.VoteCall?
    requires Step(a, act).log.snapshotIndex == 0
    ensures CommitKept(a, Step(a, act), false)
  {
    match act
    case VotesCounted(votes) => CountVotesEffect(a, votes, 0, 1);
    case WriteCounted(results, saved) =>
      WriteEnds(a, results, saved);
      CountRepliesEffect(a, results, a.phase.upTo);
    case BeatsCounted(beats) => CountBeatsEffect(a, beats, 0);
    case _ =>
  }

  lemma ActKeepsCommit(s: Cluster, n: NodeId, act: Action, t: Tally, l: Ledger)
    requires Known(s, t, l) && CanAct(s, n, act) && Step(s.nodes[n], act).log.snapshotIndex == 0
    ensures CommitKept(s.nodes[n], Step(s.nodes[n], act), false)
  {
    KnownLocal(s, t, l, n);
    if act.Deliver? {
      KnownCall(s, t, l, Packet(n, act.req));
    }
    if act.Deliver? && act.req.AppendCall? {
      AppendKeepsCommit(t, l, n, s.nodes[n], act.req.append);
    } else {
      OtherStepsKeepCommit(t, l, n, s.nodes[n], act);
    }
  }

  /** Whether event `e` is a crash of node `n`. */
  predicate CrashOf(e: Event, n: NodeId) {
    e.node == n && !e.Act?
  }

  lemma CrashFacts(s: Cluster, e: Event, t: Tally, l: Ledger)
    requires Known(s, t, l) && Enabled(s, e) && e.CrashDuring?
    ensures Ready(s.nodes[e.node], e.action) && e.k + 1 < |Writes(s.nodes[e.node], e.action)|
    ensures e.action.Deliver? ==> !e.action.req.InstallCall?
    ensures e.action.Deliver? && e.action.req.AppendCall? ==> AppendOk(l, e.action.req.append)
  {
    if e.action.Deliver? {
      KnownCall(s, t, l, Packet(e.node, e.action.req));
    }
  }

  lemma CrashEventKeepsCommit(s: Cluster, e: Event, t: Tally, l: Ledger)
    requires Known(s, t, l) && Enabled(s, e) && !e.Act?
    ensures CommitKept(s.nodes[e.node], NodeAfter(s, e), true)
  {
    KnownLocal(s, t, l, e.node);
    if e.CrashDuring? {
      CrashFacts(s, e, t, l);
      CrashKeepsCommit(t, l, e.node, s.nodes[e.node], e.action, e.k);
    } else {
      NodeFacts(s, t, l, e.node);
    }
  }

  lemma NodeAfterEvent(s: Cluster, e: Event, n: NodeId)
    requires Enabled(s, e) && n in s.nodes
    ensures n in Apply(s, e).nodes
    ensures Apply(s, e).nodes[n] == if e.node == n then NodeAfter(s, e) else s.nodes[n]
    ensures e.Act? ==> CanAct(s, e.node, e.action) && NodeAfter(s, e) == Step(s.nodes[e.node], e.action)
  {}

  lemma StillKeepsCommit(s: Cluster, n: NodeId, t: Tally, l: Ledger)
    requires Known(s, t, l) && n in s.nodes
    ensures CommitKept(s.nodes[n], s.nodes[n], false)
  {
    NodeFacts(s, t, l, n);
  }

  lemma EventKeepsCommit(s: Cluster, e: Event, n: NodeId, b: NodeState, t: Tally, l: Ledger)
    requires Known(s, t, l) && Enabled(s, e) && n in s.nodes
    requires b == (if e.node == n then NodeAfter(s, e) else s.nodes[n]) && b.log.snapshotIndex == 0
    ensures CommitKept(s.nodes[n], b, CrashOf(e, n))
  {
    NodeAfterEvent(s, e, n);
    if e.node != n {
      StillKeepsCommit(s, n, t, l);
    } else if e.Act? {
      ActKeepsCommit(s, n, e.action, t, l);
    } else {
      CrashEventKeepsCommit(s, e, t, l);
    }
  }

  lemma TurnKeepsCommit(run: Run, k: nat, n: NodeId)
    requires UncompactedRun(run) && k < |run.events| && n in run.states[k].nodes
    ensures n in run.states[k + 1].nodes
    ensures CommitKept(run.states[k].nodes[n], run.states[k + 1].nodes[n], CrashOf(run.events[k], n))
  {
    assert StepOk(run, k);
    var t, l := HistoryAt(run, k);
    NodeAfterEvent(run.states[k], run.events[k], n);
    EventKeepsCommit(run.states[k], run.events[k], n, run.states[k + 1].nodes[n], t, l);
  }

  /** As long as a node does not crash, its commit index never decreases and no truncation reaches below it. */
  lemma {:induction false} CommitsOnlyAdvance(run: Run, i: nat, j: nat, n: NodeId)
    requires UncompactedRun(run) && i <= j < |run.states| && n in run.states[i].nodes
    requires forall k :: i <= k < j ==> !CrashOf(run.events[k], n)
    ensures n in run.states[j].nodes
    ensures run.states[i].nodes[n].commitIndex <= run.states[j].nodes[n].commitIndex
    ensures Agree(Entries(run.states[i], n), Entries(run.states[j], n), run.states[i].nodes[n].commitIndex)
    decreases j
  {
    if i == j {
      CommitWithinLog(run, i, n);
      UncompactedLength(run, i, n);
    } else {
      CommitsOnlyAdvance(run, i, j - 1, n);
      TurnKeepsCommit(run, j - 1, n);
    }
  }

  lemma UncompactedLength(run: Run, i: nat, n: NodeId)
    requires UncompactedRun(run) && i < |run.states| && n in run.states[i].nodes
    ensures run.states[i].nodes[n].log.LastIndex() == |Entries(run.states[i], n)|
  {}

  // ---- The reported entry is the client's ----

  /** At event `k` node `n`, as leader of `term`, took `data` from a client and appended it at `index`. */
  ghost predicate TakesWrite(run: Run, k: nat, n: NodeId, term: nat, index: nat, data: Bytes)
    requires IsRun(run) && k < |run.events|
  {
    && run.events[k] == Act(n, ClientWrite(data)) && n in run.states[k].nodes
    && run.states[k].nodes[n].role == Leader && run.states[k].nodes[n].term == term
    && run.states[k].nodes[n].log.LastIndex() + 1 == index
  }

  /** A node that is replicating was so before, or has just taken a client's write. */
  lemma ReplicatingSince(s: Cluster, e: Event, n: NodeId)
    requires Enabled(s, e) && n in Apply(s, e).nodes && Apply(s, e).nodes[n].phase.Replicating?
    ensures n in s.nodes
    ensures
      || (e.node != n && s.nodes[n] == Apply(s, e).nodes[n])
      || (&& e.node == n && e.Act? && e.action.ClientWrite? && s.nodes[n].role == Leader
          && Apply(s, e).nodes[n] == BeginWrite(s.nodes[n], e.action.data).0)
  {
    if e.node == n && e.Act? {
      match e.action
      case Deliver(req, saved) => ServeIdle(s.nodes[n], req, saved);
      case _ =>
    }
  }

  lemma ReplicatingBefore(run: Run, i: nat, n: NodeId)
    requires IsRun(run) && 0 < i < |run.states|
    requires n in run.states[i].nodes && run.states[i].nodes[n].phase.Replicating?
    ensures n in run.states[i - 1].nodes
    ensures var (a, b, e) := (run.states[i - 1].nodes[n], run.states[i].nodes[n], run.events[i - 1]);
            || (e.node != n && a == b)
            || (&& e.node == n && e.Act? && e.action.ClientWrite? && a.role == Leader
                && b == BeginWrite(a, e.action.data).0)
  {
    assert StepOk(run, i - 1);
    ReplicatingSince(run.states[i - 1], run.events[i - 1], n);
  }

  lemma WriteTaken(a: NodeState, data: Bytes)
    requires a.role == Leader
    ensures var b := BeginWrite(a, data).0;
            && b.term == a.term && b.log == a.log.Append(a.term, data)
            && b.phase.Replicating? && b.phase.upTo == b.log.LastIndex() == a.log.LastIndex() + 1
  {}

  /** The entry a write round is about is the one the client handed in when the round began. */
  lemma {:induction false} RoundHasItsData(run: Run, i: nat, n: NodeId) returns (k: nat, data: Bytes)
    requires IsRun(run) && i < |run.states| && n in run.states[i].nodes && run.states[i].nodes[n].phase.Replicating?
    ensures k < i
    ensures var a := run.states[i].nodes[n];
            && TakesWrite(run, k, n, a.term, a.phase.upTo, data)
            && a.log == run.states[k].nodes[n].log.Append(a.term, data)
            && a.phase.upTo == a.log.LastIndex()
    decreases i
  {
    assert i > 0;
    k := i - 1;
    ReplicatingBefore(run, i, n);
    if run.events[k].node == n {
      data := run.events[k].action.data;
      WriteTaken(run.states[k].nodes[n], data);
    } else {
      k, data := RoundHasItsData(run, k, n);
    }
  }

  /** Taken together: the index a client is given is where its own data is, in the log of every leader of that or
      a later term from then on. */
  lemma ClientFindsItsData(run: Run, i: nat, n: NodeId, index: nat, j: nat, leader: NodeId) returns (k: nat,
      data: Bytes)
    requires UncompactedRun(run) && i < j < |run.states|
    requires ReportsWrite(run.states[i], run.events[i], n, index)
    requires leader in run.states[j].nodes && run.states[j].nodes[leader].role == Leader
    requires run.states[j].nodes[leader].term >= run.states[i].nodes[n].term
    ensures k < i && TakesWrite(run, k, n, run.states[i].nodes[n].term, index, data)
    ensures 0 < index <= |Entries(run.states[j], leader)|
    ensures Entries(run.states[j], leader)[index - 1] == LogEntry(run.states[i].nodes[n].term, index, data)
  {
    k, data := RoundHasItsData(run, i, n);
    ReportedWritesSurvive(run, i, n, index, j, leader);
    UncompactedLength(run, i, n);
    UncompactedLength(run, k, n);
    assert Entries(run.states[i], n)[index - 1] == LogEntry(run.states[i].nodes[n].term, index, data);
  }
}
