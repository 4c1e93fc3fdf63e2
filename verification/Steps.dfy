/** Every step of a node of an uncompacted cluster moves the histories on consistently. */
module Steps {
  import opened Bytes
  import opened Log
  import opened NodeModel
  import opened Cluster
  import opened Elections
  import opened Ledger
  import opened Coupling
  import M = Merge

  /** All that is known of the node that is about to move. */
  ghost predicate Local(t: Tally, l: Ledger, n: NodeId, a: NodeState) {
    Consistent(t, l) && n in t.terms && NodeOk(t, n, a) && NodeCoupled(t, l, n, a) && a.config.id == n
  }

  /** The node keeps its log and enters no role: it may only learn of a higher term, or restart. */
  ghost predicate Quiet(a: NodeState, b: NodeState) {
    && b.term >= a.term && b.log == a.log
    && b.role != Leader && b.phase.Idle?
    && b.votedFor == (if b.term == a.term then a.votedFor else None)
    && b.commitIndex <= a.commitIndex
  }

  lemma QuietRecord(t: Tally, n: NodeId, a: NodeState, b: NodeState)
    requires n in t.terms && NodeOk(t, n, a) && Quiet(a, b)
    ensures Record(t, n, a, b) == Raise(t, n, b.term)
  {}

  lemma QuietCoupled(t: Tally, l: Ledger, n: NodeId, a: NodeState, b: NodeState, u: Tally)
    requires NodeCoupled(t, l, n, a) && Quiet(a, b)
    ensures NodeCoupled(u, l, n, b)
  {
    SmallerCommit(l, a.log.entries, a.commitIndex, b.commitIndex, a.term, b.term);
  }

  /** History that stays as it is also grows. */
  lemma RaiseExtends(s: Cluster, t: Tally, l: Ledger, n: NodeId, term: nat)
    requires n in t.terms && term >= t.terms[n]
    ensures Extends(s, n, t, l, Raise(t, n, term), l)
  {}

  lemma RaiseTurn(s: Cluster, n: NodeId, b: NodeState, t: Tally, l: Ledger, term: nat)
    requires Consistent(t, l) && n in t.terms && term >= t.terms[n]
    requires NodeCoupled(Raise(t, n, term), l, n, b)
    ensures Turn(s, n, b, t, l, Raise(t, n, term), l)
  {
    RaiseKeeps(t, l, n, term);
    RaiseExtends(s, t, l, n, term);
  }

  lemma QuietTurn(s: Cluster, n: NodeId, a: NodeState, b: NodeState, t: Tally, l: Ledger)
    requires Local(t, l, n, a) && Quiet(a, b)
    ensures Turn(s, n, b, t, l, Record(t, n, a, b), l)
  {
    QuietRecord(t, n, a, b);
    QuietCoupled(t, l, n, a, b, Raise(t, n, b.term));
    RaiseTurn(s, n, b, t, l, b.term);
  }

  lemma SmallerCommit(l: Ledger, log: seq<LogEntry>, c: nat, c': nat, term: nat, term': nat)
    requires CommittedPrefix(l, log, c, term) && c' <= c && term <= term'
    ensures CommittedPrefix(l, log, c', term')
  {
    if c' > 0 {
      var d :| Covers(l, d, log, c, term);
      assert Covers(l, d, log, c', term');
    }
  }

  /** A leader stays leader of its term with the same log; only its indexes and phase may change. */
  ghost predicate StillLeads(a: NodeState, b: NodeState) {
    && a.role == Leader
    && b == a.(nextIndex := b.nextIndex, matchIndex := b.matchIndex, phase := b.phase)
    && IndexesOk(b) && !b.phase.Electing? && !b.phase.Replicating?
  }

  lemma LeaderTurn(s: Cluster, n: NodeId, a: NodeState, b: NodeState, t: Tally, l: Ledger)
    requires Local(t, l, n, a) && StillLeads(a, b)
    ensures Record(t, n, a, b) == t
    ensures Turn(s, n, b, t, l, t, l)
  {
    SameRecord(t, n, a, b);
    assert NodeCoupled(t, l, n, b);
    RaiseTurn(s, n, b, t, l, a.term);
  }

  lemma SameRecord(t: Tally, n: NodeId, a: NodeState, b: NodeState)
    requires n in t.terms && NodeOk(t, n, a)
    requires b.term == a.term && b.votedFor == a.votedFor && (b.role == Leader ==> a.role == Leader)
    ensures Record(t, n, a, b) == t && Raise(t, n, a.term) == t
  {}

  // ---- Votes ----

  /** The node casts a first vote for `c`, in a term it just entered or had not voted in. */
  ghost predicate Casts(n: NodeId, a: NodeState, b: NodeState, c: NodeId) {
    && b.term >= a.term && (b.term == a.term ==> a.votedFor == None)
    && b.log == a.log && b.votedFor == Some(c) && b.commitIndex == a.commitIndex && b.role != Leader
    && (if c == n then b.phase.Electing? && b.term > a.term else b.phase.Idle?)
  }

  lemma CastRecord(t: Tally, n: NodeId, a: NodeState, b: NodeState, c: NodeId)
    requires n in t.terms && NodeOk(t, n, a) && BallotsOk(t) && Casts(n, a, b, c)
    ensures (n, b.term) !in t.ballots
    ensures Record(t, n, a, b) == Cast(Raise(t, n, b.term), n, c)
  {}

  lemma CastCoupled(t: Tally, l: Ledger, n: NodeId, a: NodeState, b: NodeState, c: NodeId, r: Tally, m: Ledger)
    requires n in t.terms && NodeOk(t, n, a) && NodeCoupled(t, l, n, a) && Casts(n, a, b, c)
    requires CandidatesReached(t)
    requires r == Raise(t, n, b.term) && m == CastLog(r, l, n) && Grows(l, m)
    ensures NodeCoupled(Cast(r, n, c), m, n, b)
  {
    CommittedGrows(l, m, a.log.entries, a.log.entries, a.commitIndex, a.term, b.term);
    assert c == n ==> forall v :: (v, b.term) in r.ballots && r.ballots[(v, b.term)] == n ==> v == n;
  }

  lemma CastExtends(s: Cluster, n: NodeId, a: NodeState, b: NodeState, t: Tally, l: Ledger, c: NodeId, r: Tally,
      m: Ledger)
    requires n in t.terms && n in l.logs && b.log.entries == l.logs[n] && Casts(n, a, b, c) && b.term >= t.terms[n]
    requires c in t.terms && (c == n || b.term <= t.terms[c])
    requires c != n && c in s.nodes && s.nodes[c].phase.Electing? && s.nodes[c].term == b.term ==>
               AtLeast(s.nodes[c].log.entries, b.log.entries)
    requires r == Raise(t, n, b.term) && m == CastLog(r, l, n)
    requires (n, b.term) !in t.ballots
    requires l.voterLogs.Keys == t.ballots.Keys
    ensures Extends(s, n, t, l, Cast(r, n, c), m)
  {}

  lemma CastTurn(s: Cluster, n: NodeId, a: NodeState, b: NodeState, t: Tally, l: Ledger, c: NodeId)
    returns (m: Ledger)
    requires Local(t, l, n, a) && CandidatesReached(t) && Casts(n, a, b, c)
    requires c in t.terms && (c == n || b.term <= t.terms[c])
    requires c != n && c in s.nodes && s.nodes[c].phase.Electing? && s.nodes[c].term == b.term ==>
               AtLeast(s.nodes[c].log.entries, b.log.entries)
    ensures Turn(s, n, b, t, l, Record(t, n, a, b), m)
  {
    var r := Raise(t, n, b.term);
    CastRecord(t, n, a, b, c);
    RaiseKeeps(t, l, n, b.term);
    m := CastLog(r, l, n);
    CastKeeps(r, l, n, c);
    CastCoupled(t, l, n, a, b, c, r, m);
    CastExtends(s, n, a, b, t, l, c, r, m);
  }

  // ---- AppendEntries ----

  lemma TracedNumbered(t: Tally, l: Ledger, log: seq<LogEntry>)
    requires LedgerOk(t, l) && Traced(l, log)
    ensures Numbered(log, 0)
  {
    forall i | 0 <= i < |log|
      ensures log[i].index == 1 + i
    {
      assert TracedAt(l, log, i);
      assert ReignOk(t, l, log[i].term);
    }
  }

  lemma LogNumbered(t: Tally, l: Ledger, n: NodeId)
    requires LedgerOk(t, l) && n in l.logs
    ensures Numbered(l.logs[n], 0)
  {
    assert LogOk(t, l, n);
    TracedNumbered(t, l, l.logs[n]);
  }

  /** When the consistency check passes, the log agrees with the leader's up to `prev` and over every match. */
  lemma CheckedPrefix(l: Ledger, before: seq<LogEntry>, r: AppendRequest)
    requires AppendOk(l, r) && Traced(l, before) && Traced(l, l.reigns[r.term].log)
    requires Numbered(before, 0) && Numbered(l.reigns[r.term].log, 0)
    requires Conflict(Log(0, 0, before), r.prevLogIndex, r.prevLogTerm) == None
    ensures M.Fitting(Log(0, 0, before), r.prevLogIndex, r.entries)
    ensures Agree(before, l.reigns[r.term].log, r.prevLogIndex + M.Matched(Log(0, 0, before), r.entries))
  {
    PrevIsShared(l, before, r);
    if M.Matched(Log(0, 0, before), r.entries) > 0 {
      MatchIsShared(l, before, r, M.Matched(Log(0, 0, before), r.entries) - 1);
    }
  }

  lemma PrevIsShared(l: Ledger, before: seq<LogEntry>, r: AppendRequest)
    requires AppendOk(l, r) && Traced(l, before) && Traced(l, l.reigns[r.term].log) && Numbered(before, 0)
    requires Conflict(Log(0, 0, before), r.prevLogIndex, r.prevLogTerm) == None
    ensures r.prevLogIndex <= |before| && Agree(before, l.reigns[r.term].log, r.prevLogIndex)
  {
    if r.prevLogIndex > 0 {
      TracedLogsMatch(l, before, l.reigns[r.term].log, r.prevLogIndex - 1);
    }
  }

  lemma MatchIsShared(l: Ledger, before: seq<LogEntry>, r: AppendRequest, i: nat)
    requires AppendOk(l, r) && Traced(l, before) && Traced(l, l.reigns[r.term].log)
    requires Numbered(l.reigns[r.term].log, 0)
    requires i < |r.entries| && M.Matches(Log(0, 0, before), r.entries[i])
    ensures Agree(before, l.reigns[r.term].log, r.prevLogIndex + i + 1)
  {
    assert r.entries[i] == l.reigns[r.term].log[r.prevLogIndex + i];
    TracedLogsMatch(l, before, l.reigns[r.term].log, r.prevLogIndex + i);
  }

  /** A log that is the leader's from the match on, as far as it goes, advances. */
  lemma CutAdvances(before: seq<LogEntry>, after: seq<LogEntry>, leader: seq<LogEntry>, matched: nat)
    requires Agree(before, leader, matched) && matched <= |after| && Prefix(after, leader)
    requires matched < |leader| && (matched < |before| ==> before[matched].term != leader[matched].term)
    ensures Advances(before, after, leader)
  {}

  lemma SpliceIsLeaders(before: seq<LogEntry>, leader: seq<LogEntry>, r: AppendRequest, j: nat, spliced: seq<LogEntry>)
    requires j <= |r.entries| && r.prevLogIndex + |r.entries| <= |leader|
    requires Agree(before, leader, r.prevLogIndex + j)
    requires forall i :: 0 <= i < |r.entries| ==> r.entries[i] == leader[r.prevLogIndex + i]
    requires spliced == before[..r.prevLogIndex + j] + r.entries[j..]
    ensures |spliced| == r.prevLogIndex + |r.entries|
    ensures Prefix(spliced, leader)
  {}

  lemma CutIsLeaders(kept: seq<LogEntry>, w: Log, end: Log, leader: seq<LogEntry>)
    requires M.Between(kept, w, end) && Prefix(end.entries, leader)
    ensures Prefix(w.entries, leader)
  {}

  /** What an accepted request adds was the leader's; what it cuts off was not. */
  /** How far the log already agrees with the leader's, and that it goes no further. */
  ghost predicate Parts(before: seq<LogEntry>, leader: seq<LogEntry>, r: AppendRequest) {
    var j := M.Matched(Log(0, 0, before), r.entries);
    var at := r.prevLogIndex + j;
    && at <= |before| && Agree(before, leader, at)
    && (j < |r.entries| ==> at < |leader| && (at < |before| ==> before[at].term != leader[at].term))
  }

  lemma MergeFacts(l: Ledger, before: seq<LogEntry>, r: AppendRequest)
    requires AppendOk(l, r) && Traced(l, before) && Traced(l, l.reigns[r.term].log)
    requires Numbered(before, 0) && Numbered(l.reigns[r.term].log, 0)
    requires Conflict(Log(0, 0, before), r.prevLogIndex, r.prevLogTerm) == None
    ensures M.Fitting(Log(0, 0, before), r.prevLogIndex, r.entries) && Parts(before, l.reigns[r.term].log, r)
  {
    var log, prev, j := Log(0, 0, before), r.prevLogIndex, M.Matched(Log(0, 0, before), r.entries);
    CheckedPrefix(l, before, r);
    if j < |r.entries| {
      assert !M.Matches(log, r.entries[j]) && r.entries[j] == l.reigns[r.term].log[prev + j];
    }
  }

  /** An accepted request makes the log advance, at every write on the way, and in the end all of it is there. */
  lemma MergeAdvances(l: Ledger, before: seq<LogEntry>, r: AppendRequest)
    requires AppendOk(l, r) && Traced(l, before) && Traced(l, l.reigns[r.term].log)
    requires Numbered(before, 0) && Numbered(l.reigns[r.term].log, 0)
    requires Conflict(Log(0, 0, before), r.prevLogIndex, r.prevLogTerm) == None
    ensures var leader, merged := l.reigns[r.term].log, Merge(Log(0, 0, before), r.entries);
            && merged == Log(0, 0, merged.entries)
            && Advances(before, merged.entries, leader)
            && Agree(merged.entries, leader, r.prevLogIndex + |r.entries|)
            && forall w :: w in MergeWrites(Log(0, 0, before), r.entries) ==>
                 w == Log(0, 0, w.entries) && Advances(before, w.entries, leader)
  {
    var log, prev := Log(0, 0, before), r.prevLogIndex;
    MergeFacts(l, before, r);
    M.MergeIsSplice(log, prev, r.entries);
    if M.Matched(log, r.entries) < |r.entries| {
      SplicedAdvances(before, l.reigns[r.term].log, r, Merge(log, r.entries));
    }
  }

  lemma SplicedAdvances(before: seq<LogEntry>, leader: seq<LogEntry>, r: AppendRequest, merged: Log)
    requires M.Fitting(Log(0, 0, before), r.prevLogIndex, r.entries)
    requires var j := M.Matched(Log(0, 0, before), r.entries);
             var at := r.prevLogIndex + j;
             j < |r.entries| && Parts(before, leader, r) && merged == Log(0, 0, before[..at] + r.entries[j..])
    requires r.prevLogIndex + |r.entries| <= |leader|
    requires forall i :: 0 <= i < |r.entries| ==> r.entries[i] == leader[r.prevLogIndex + i]
    requires merged == Merge(Log(0, 0, before), r.entries)
    requires M.WritesBetween(Log(0, 0, before), r.prevLogIndex, r.entries)
    ensures Advances(before, merged.entries, leader)
    ensures Agree(merged.entries, leader, r.prevLogIndex + |r.entries|)
    ensures forall w :: w in MergeWrites(Log(0, 0, before), r.entries) ==>
              w == Log(0, 0, w.entries) && Advances(before, w.entries, leader)
  {
    var j := M.Matched(Log(0, 0, before), r.entries);
    var at := r.prevLogIndex + j;
    SpliceIsLeaders(before, leader, r, j, merged.entries);
    CutAdvances(before, merged.entries, leader, at);
    forall w | w in MergeWrites(Log(0, 0, before), r.entries)
      ensures w == Log(0, 0, w.entries) && Advances(before, w.entries, leader)
    {
      CutWriteAdvances(before, w, merged, leader, at);
    }
  }

  lemma CutWriteAdvances(before: seq<LogEntry>, w: Log, merged: Log, leader: seq<LogEntry>, matched: nat)
    requires Agree(before, leader, matched) && matched < |leader| && Prefix(merged.entries, leader)
    requires matched <= |w.entries| && M.Between(before[..matched], w, merged)
    requires matched < |before| ==> before[matched].term != leader[matched].term
    ensures Advances(before, w.entries, leader)
  {
    CutIsLeaders(before[..matched], w, merged, leader);
    CutAdvances(before, w.entries, leader, matched);
  }

  /** What is committed stays committed when a log advances: no truncation reaches below the commit index. */
  lemma CommitSurvives(t: Tally, l: Ledger, before: seq<LogEntry>, after: seq<LogEntry>, term: nat, c: nat,
      before_term: nat)
    requires Consistent(t, l) && term in l.reigns && before_term <= term
    requires Advances(before, after, l.reigns[term].log)
    requires CommittedPrefix(l, before, c, before_term)
    ensures CommittedPrefix(l, after, c, term)
    ensures Agree(before, after, c)
  {
    if c > 0 {
      var d :| Covers(l, d, before, c, before_term);
      CommitReachesLeader(t, l, d, term);
      assert Agree(before, l.reigns[term].log, c);
      assert Covers(l, d, after, c, term);
    }
  }

  /** Every leader from a commit's term on has the committed entries. */
  lemma CommitReachesLeader(t: Tally, l: Ledger, d: Commit, term: nat)
    requires Consistent(t, l) && d in l.commits && term in l.reigns && d.term <= term
    ensures d.term in l.reigns
    ensures Agree(l.reigns[term].log, l.reigns[d.term].log, d.upTo)
  {
    assert CommitOk(t, l, d);
    if d.term < term {
      LeaderCompleteness(t, l, d, term);
      assert ReignOk(t, l, term);
    }
  }

  /** The node, in the term of a leader it follows, has advanced to the entries `after`. */
  ghost predicate Follows(a: NodeState, b: NodeState, l: Ledger, after: seq<LogEntry>) {
    && Quiet(a, b.(log := a.log, commitIndex := 0)) && b.log == Log(0, 0, after)
    && b.term in l.reigns
    && Advances(a.log.entries, after, l.reigns[b.term].log)
  }

  /** The commit index stays, restarts, or follows a committed prefix of the leader's log. */
  ghost predicate CommitFollows(a: NodeState, b: NodeState, l: Ledger) {
    b.commitIndex <= a.commitIndex
    || (b.term in l.reigns && Agree(b.log.entries, l.reigns[b.term].log, b.commitIndex)
        && CommittedPrefix(l, l.reigns[b.term].log, b.commitIndex, b.term))
  }

  lemma FollowsCommit(t: Tally, l: Ledger, a: NodeState, b: NodeState, after: seq<LogEntry>)
    requires Consistent(t, l) && Follows(a, b, l, after) && CommitFollows(a, b, l)
    requires CommittedPrefix(l, a.log.entries, a.commitIndex, a.term)
    ensures CommittedPrefix(l, after, b.commitIndex, b.term)
  {
    if b.commitIndex <= a.commitIndex {
      CommitSurvives(t, l, a.log.entries, after, b.term, a.commitIndex, a.term);
      SmallerCommit(l, after, a.commitIndex, b.commitIndex, b.term, b.term);
    } else {
      CommittedGrows(l, l, l.reigns[b.term].log, after, b.commitIndex, b.term, b.term);
    }
  }

  lemma FollowRecord(t: Tally, l: Ledger, n: NodeId, a: NodeState, b: NodeState, after: seq<LogEntry>)
    requires n in t.terms && NodeOk(t, n, a) && Follows(a, b, l, after)
    ensures Record(t, n, a, b) == Raise(t, n, b.term)
  {}

  lemma FollowExtends(s: Cluster, t: Tally, l: Ledger, n: NodeId, term: nat, m: Ledger, after: seq<LogEntry>,
      acks: set<Ack>)
    requires n in t.terms && n in l.logs && term >= t.terms[n]
    requires m == l.(logs := l.logs[n := after], acks := l.acks + acks)
    ensures Extends(s, n, t, l, Raise(t, n, term), m)
  {}

  /** The acknowledgments a follower of `term` may add: none, or one for a prefix it shares with its leader. */
  ghost predicate Acknowledges(l: Ledger, n: NodeId, term: nat, after: seq<LogEntry>, acks: set<Ack>) {
    && term in l.reigns
    && (acks == {} || exists i: nat :: acks == {Ack(n, term, i)} && Agree(after, l.reigns[term].log, i))
  }

  lemma FollowLedger(u: Tally, l: Ledger, n: NodeId, after: seq<LogEntry>, acks: set<Ack>) returns (m: Ledger)
    requires Consistent(u, l) && n in u.terms && u.terms[n] in l.reigns
    requires Advances(l.logs[n], after, l.reigns[u.terms[n]].log)
    requires Acknowledges(l, n, u.terms[n], after, acks)
    ensures m == l.(logs := l.logs[n := after], acks := l.acks + acks)
    ensures Consistent(u, m)
  {
    AdoptKeeps(u, l, n, after);
    m := l.(logs := l.logs[n := after]);
    if acks != {} {
      var i: nat :| acks == {Ack(n, u.terms[n], i)} && Agree(after, l.reigns[u.terms[n]].log, i);
      AckKeeps(u, m, n, i);
      m := m.(acks := m.acks + acks);
    } else {
      assert l.acks + acks == l.acks;
    }
  }

  lemma FollowCoupled(u: Tally, l: Ledger, n: NodeId, a: NodeState, b: NodeState, after: seq<LogEntry>, m: Ledger)
    requires Follows(a, b, l, after) && CommittedPrefix(l, after, b.commitIndex, b.term)
    requires n in l.logs && m.logs == l.logs[n := after] && Grows(l, m)
    ensures NodeCoupled(u, m, n, b)
  {
    CommittedGrows(l, m, after, after, b.commitIndex, b.term, b.term);
  }

  /** A follower's log advances, with or without an acknowledgment. */
  lemma FollowTurn(s: Cluster, n: NodeId, a: NodeState, b: NodeState, t: Tally, l: Ledger, after: seq<LogEntry>,
      acks: set<Ack>)
    returns (m: Ledger)
    requires Local(t, l, n, a) && Follows(a, b, l, after) && CommitFollows(a, b, l)
    requires Acknowledges(l, n, b.term, after, acks)
    ensures acks <= m.acks
    ensures Turn(s, n, b, t, l, Record(t, n, a, b), m)
  {
    var u := Raise(t, n, b.term);
    FollowRecord(t, l, n, a, b, after);
    RaiseKeeps(t, l, n, b.term);
    FollowsCommit(u, l, a, b, after);
    m := FollowLedger(u, l, n, after, acks);
    FollowExtends(s, t, l, n, b.term, m, after, acks);
    FollowCoupled(u, l, n, a, b, after, m);
  }

  // ---- Leaders ----

  lemma QuotedTail(entries: seq<LogEntry>, next: nat)
    requires Numbered(entries, 0) && 1 <= next <= |entries| + 1
    ensures UpTo(Log(0, 0, entries).EntriesFrom(next), |entries|) == entries[next - 1..]
  {
    var tail := entries[next - 1..];
    FiltersAreSlices(tail, next - 1, |entries|);
    assert tail[..|tail|] == tail;
  }

  /** What a leader sends a peer quotes its log from the peer's next index to the end. */
  lemma BuildOk(l: Ledger, a: NodeState, i: nat, upTo: nat)
    requires a.role == Leader && LeaderOk(l, a) && a.log == Log(0, 0, a.log.entries) && Numbered(a.log.entries, 0)
    requires CommittedPrefix(l, a.log.entries, a.commitIndex, a.term)
    requires i < |a.config.peers| && upTo == |a.log.entries|
    ensures var req := BuildRequest(a, a.config.peers[i], upTo);
            Carries(req, a.term, upTo) && AppendOk(l, req.append)
  {
    QuotedTail(a.log.entries, a.nextIndex[a.config.peers[i]]);
  }

  /** A leader appends a client's entry and starts replicating it. */
  lemma WriteTurn(s: Cluster, n: NodeId, a: NodeState, b: NodeState, data: Bytes, t: Tally, l: Ledger)
      returns (m: Ledger)
    requires Local(t, l, n, a) && a.role == Leader && b == BeginWrite(a, data).0
    ensures Turn(s, n, b, t, l, Record(t, n, a, b), m)
    ensures AppendsOk(m, Sent(b))
  {
    var e := LogEntry(a.term, |l.logs[n]| + 1, data);
    m := LeadLog(t, l, n, e);
    SameRecord(t, n, a, b);
    WriteConsistent(t, l, n, e);
    WriteExtends(s, t, l, n, e);
    WriteCoupled(t, l, n, a, b, data, m);
  }

  lemma WriteConsistent(t: Tally, l: Ledger, n: NodeId, e: LogEntry)
    requires Consistent(t, l) && n in t.terms && t.terms[n] in l.reigns
    requires l.logs[n] == l.reigns[t.terms[n]].log
    requires e.term == t.terms[n] && e.index == |l.logs[n]| + 1
    ensures Consistent(t, LeadLog(t, l, n, e))
    ensures Numbered(LeadLog(t, l, n, e).logs[n], 0)
  {
    LeadKeeps(t, l, n, e);
    LogNumbered(t, LeadLog(t, l, n, e), n);
  }

  lemma WriteExtends(s: Cluster, t: Tally, l: Ledger, n: NodeId, e: LogEntry)
    requires n in t.terms && n in l.logs && t.terms[n] in l.reigns && t.terms[n] in t.wins
    requires t.wins[t.terms[n]].leader == n && l.logs[n] == l.reigns[t.terms[n]].log
    ensures Extends(s, n, t, l, t, LeadLog(t, l, n, e))
  {}

  lemma WriteCoupled(t: Tally, l: Ledger, n: NodeId, a: NodeState, b: NodeState, data: Bytes, m: Ledger)
    requires n in t.terms && t.terms[n] == a.term && NodeCoupled(t, l, n, a) && a.role == Leader
    requires b == BeginWrite(a, data).0
    requires m == LeadLog(t, l, n, LogEntry(a.term, |l.logs[n]| + 1, data)) && Grows(l, m)
    requires Numbered(m.logs[n], 0)
    ensures NodeCoupled(t, m, n, b)
    ensures AppendsOk(m, Sent(b))
  {
    var c := a.(log := b.log);
    CommittedGrows(l, m, a.log.entries, b.log.entries, a.commitIndex, a.term, a.term);
    assert LeaderOk(m, c);
    forall i | 0 <= i < |a.config.peers|
      ensures Carries(b.phase.sent[i], a.term, b.phase.upTo) && AppendOk(m, b.phase.sent[i].append)
    {
      BuildOk(m, c, i, b.phase.upTo);
    }
  }

  /** A candidate with a majority becomes leader of its term. */
  lemma WinTurn(s: Cluster, n: NodeId, a: NodeState, b: NodeState, t: Tally, l: Ledger) returns (m: Ledger)
    requires Local(t, l, n, a) && a.phase.Electing?
    requires b == a.BecomeLeader().(phase := Idle)
    requires a.term !in t.wins && |Supporters(t, a.term, n)| >= Majority(t.terms.Keys)
    ensures Turn(s, n, b, t, l, Record(t, n, a, b), m)
  {
    var voters := Supporters(t, a.term, n);
    WinRecord(t, n, a, b);
    m := CrownLog(t, l, n);
    CrownKeeps(t, l, n, voters);
    WinExtends(s, t, l, n, voters);
    WinCoupled(t, l, n, a, b, m);
  }

  lemma WinRecord(t: Tally, n: NodeId, a: NodeState, b: NodeState)
    requires n in t.terms && NodeOk(t, n, a) && a.phase.Electing?
    requires b == a.BecomeLeader().(phase := Idle)
    ensures Record(t, n, a, b) == Crown(t, n, Supporters(t, a.term, n))
  {
    assert t.terms[n := a.term] == t.terms;
  }

  lemma WinExtends(s: Cluster, t: Tally, l: Ledger, n: NodeId, voters: set<NodeId>)
    requires n in t.terms && n in l.logs && t.terms[n] !in t.wins && l.reigns.Keys == t.wins.Keys
    ensures Extends(s, n, t, l, Crown(t, n, voters), CrownLog(t, l, n))
  {}

  lemma WinCoupled(t: Tally, l: Ledger, n: NodeId, a: NodeState, b: NodeState, m: Ledger)
    requires n in t.terms && t.terms[n] == a.term && NodeCoupled(t, l, n, a)
    requires b == a.BecomeLeader().(phase := Idle)
    requires m == CrownLog(t, l, n) && Grows(l, m)
    ensures NodeCoupled(Crown(t, n, Supporters(t, a.term, n)), m, n, b)
  {
    CommittedGrows(l, m, a.log.entries, a.log.entries, a.commitIndex, a.term, a.term);
  }

  // ---- Counting a round ----

  /** A response a leader may count in its round: an acknowledgment on record, or a hint within its log. */
  ghost predicate ReplyOk(l: Ledger, a: NodeState, upTo: nat, i: nat, result: Option<Response>)
    requires i < |a.config.peers|
  {
    result.Some? ==>
      && result.value.AppendReply?
      && if result.value.append.success then Ack(a.config.peers[i], a.term, upTo) in l.acks
         else result.value.append.conflictIndex <= upTo
  }

  /** The loop keeps every next index within the log, and counts no more than have acknowledged. */
  lemma {:induction false} CountedAcks(
    l: Ledger, s: NodeState, results: seq<Option<Response>>, i: nat, upTo: nat, seen: set<NodeId>, ackers: set<NodeId>)
    requires |results| == |s.config.peers| && i <= |results| && Distinct(s.config.peers)
    requires IndexesOk(s) && upTo == s.log.LastIndex()
    requires forall j :: 0 <= j < |results| ==> ReplyOk(l, s, upTo, j, results[j])
    requires forall j :: 0 <= j < |results| && Ack(s.config.peers[j], s.term, upTo) in l.acks ==>
               s.config.peers[j] in ackers
    requires seen <= ackers && forall j :: i <= j < |results| ==> s.config.peers[j] !in seen
    ensures var c := CountAppends(s, s.config.peers, results, i, upTo, |seen|);
            c.count <= |ackers| && (!c.steppedDown ==> IndexesOk(c.node))
    decreases |results| - i
  {
    SubsetSize(seen, ackers);
    if i < |results| {
      assert ReplyOk(l, s, upTo, i, results[i]);
      if results[i].Some? && results[i].value.append.term <= s.term {
        var resp := results[i].value.append;
        var next := TakeAppendReply(s, s.config.peers[i], resp, upTo);
        assert forall j :: 0 <= j < |results| ==> ReplyOk(l, next, upTo, j, results[j]) by {
          assert forall j :: 0 <= j < |results| ==> ReplyOk(l, s, upTo, j, results[j]);
        }
        CountedAcks(l, next, results, i + 1, upTo, if resp.success then seen + {s.config.peers[i]} else seen, ackers);
      } else if results[i] == None {
        CountedAcks(l, s, results, i + 1, upTo, seen, ackers);
      }
    }
  }

  lemma NoInstalls(s: NodeState, peers: seq<NodeId>, results: seq<Option<Response>>, i: nat, acks: nat)
    requires |peers| == |results| && i <= |results|
    requires forall j :: 0 <= j < |results| && results[j].Some? ==> results[j].value.AppendReply?
    ensures CountInstalls(s, peers, results, i, acks) == Count(s, acks, false)
    decreases |results| - i
  {}
}
