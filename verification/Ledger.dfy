/** The log history of a run: what every leader's log was, who acknowledged which part of it, and what was
    committed. Each elementary move of a node keeps this history consistent, and a consistent history has
    log matching and leader completeness. It is a proof device: the cluster itself does not carry it. */
module Ledger {
  import opened Bytes
  import opened Log
  import opened NodeModel
  import opened Cluster
  import opened Elections

  /** The log a leader was elected with, and its log now, or when it last led. */
  datatype Reign = Reign(start: seq<LogEntry>, log: seq<LogEntry>)

  /** `node`, in `term`, held the first `upTo` entries of that term's leader. */
  datatype Ack = Ack(node: NodeId, term: nat, upTo: nat)

  /** The leader of `term` counted a quorum for its entry at `upTo`. */
  datatype Commit = Commit(term: nat, upTo: nat)

  /** `voterLogs[(v, t)]` is the log `v` had when it cast its ballot for term `t`. */
  datatype Ledger = Ledger(
    logs: map<NodeId, seq<LogEntry>>,
    voterLogs: map<(NodeId, nat), seq<LogEntry>>,
    reigns: map<nat, Reign>,
    acks: set<Ack>,
    commits: set<Commit>)

  /** Both logs reach `n` and hold the same first `n` entries. */
  ghost predicate Agree(a: seq<LogEntry>, b: seq<LogEntry>, n: nat) {
    n <= |a| && n <= |b| && forall i :: 0 <= i < n ==> a[i] == b[i]
  }

  ghost predicate Prefix(a: seq<LogEntry>, b: seq<LogEntry>) {
    Agree(a, b, |a|)
  }

  function TermOf(entries: seq<LogEntry>): nat {
    if entries == [] then 0 else entries[|entries| - 1].term
  }

  ghost predicate AtLeast(a: seq<LogEntry>, b: seq<LogEntry>) {
    TermOf(a) > TermOf(b) || (TermOf(a) == TermOf(b) && |a| >= |b|)
  }

  // ---- Consistency ----

  /** Up to and including position `i`, the log is that of the leader who created entry `i`. */
  ghost predicate TracedAt(l: Ledger, log: seq<LogEntry>, i: nat)
    requires i < |log|
  {
    log[i].term in l.reigns && Agree(log, l.reigns[log[i].term].log, i + 1)
  }

  ghost predicate Traced(l: Ledger, log: seq<LogEntry>) {
    forall i {:trigger TracedAt(l, log, i)} :: 0 <= i < |log| ==> TracedAt(l, log, i)
  }

  ghost predicate TermsBelow(log: seq<LogEntry>, bound: nat) {
    forall i :: 0 <= i < |log| ==> log[i].term < bound
  }

  /** The leader of `later` was elected without the first `i` entries of the leader of `term`. */
  ghost predicate Lacks(l: Ledger, term: nat, i: nat, later: nat) {
    term in l.reigns && later in l.reigns && !Agree(l.reigns[later].start, l.reigns[term].log, i)
  }

  /** `log` still holds the first `i` entries of the leader of `term`, unless a leader of a term
      in between was elected without them. */
  ghost predicate Kept(l: Ledger, log: seq<LogEntry>, term: nat, i: nat, bound: nat)
    requires term in l.reigns
  {
    Agree(log, l.reigns[term].log, i) || exists later :: term < later < bound && Lacks(l, term, i, later)
  }

  ghost predicate ReignShape(r: Reign, term: nat) {
    && term >= 1
    && Prefix(r.start, r.log)
    && TermsBelow(r.start, term)
    && (forall i :: |r.start| <= i < |r.log| ==> r.log[i].term == term)
    && Numbered(r.log, 0)
  }

  ghost predicate ReignOk(t: Tally, l: Ledger, term: nat)
    requires term in l.reigns && term in t.wins
  {
    && ReignShape(l.reigns[term], term)
    && Traced(l, l.reigns[term].log)
    && forall v :: v in t.wins[term].voters ==>
         (v, term) in l.voterLogs && AtLeast(l.reigns[term].start, l.voterLogs[(v, term)])
  }

  ghost predicate LogOk(t: Tally, l: Ledger, n: NodeId)
    requires n in l.logs && n in t.terms
  {
    Traced(l, l.logs[n]) && TermsBelow(l.logs[n], t.terms[n] + 1)
  }

  ghost predicate AckOk(t: Tally, l: Ledger, k: Ack) {
    && k.node in l.logs && k.node in t.terms
    && k.term in l.reigns && k.upTo <= |l.reigns[k.term].log|
    && k.term <= t.terms[k.node]
    && Kept(l, l.logs[k.node], k.term, k.upTo, t.terms[k.node] + 1)
  }

  /** What a voter had acknowledged in an earlier term it still held when it voted in `later`. */
  ghost predicate VoteKept(t: Tally, l: Ledger, k: Ack, later: nat) {
    && k.term in l.reigns && (k.node, later) in l.voterLogs && k.term < later
    && (later in t.wins ==> k.node in t.wins[later].voters)
    ==> Kept(l, l.voterLogs[(k.node, later)], k.term, k.upTo, later)
  }

  function Ackers(l: Ledger, c: Commit): set<NodeId> {
    set k | k in l.acks && k.term == c.term && k.upTo == c.upTo :: k.node
  }

  ghost predicate CommitOk(t: Tally, l: Ledger, c: Commit) {
    && c.term in l.reigns
    && 0 < c.upTo <= |l.reigns[c.term].log|
    && l.reigns[c.term].log[c.upTo - 1].term == c.term
    && |Ackers(l, c)| >= Majority(t.terms.Keys)
  }

  ghost predicate Domains(t: Tally, l: Ledger) {
    l.logs.Keys == t.terms.Keys && l.voterLogs.Keys == t.ballots.Keys && l.reigns.Keys == t.wins.Keys
  }

  ghost predicate ReignsOk(t: Tally, l: Ledger)
    requires Domains(t, l)
  {
    forall term :: term in l.reigns ==> ReignOk(t, l, term)
  }

  ghost predicate LogsOk(t: Tally, l: Ledger)
    requires Domains(t, l)
  {
    && (forall n :: n in l.logs ==> LogOk(t, l, n))
    && (forall b :: b in l.voterLogs ==> Traced(l, l.voterLogs[b]))
  }

  ghost predicate AcksOk(t: Tally, l: Ledger) {
    && (forall k :: k in l.acks ==> AckOk(t, l, k))
    && (forall k, later :: k in l.acks ==> VoteKept(t, l, k, later))
    && (forall c :: c in l.commits ==> CommitOk(t, l, c))
  }

  ghost predicate LedgerOk(t: Tally, l: Ledger) {
    Domains(t, l) && ReignsOk(t, l) && LogsOk(t, l) && AcksOk(t, l)
  }

  /** History is only ever added to; a leader's log only gets longer. */
  ghost predicate Grows(l: Ledger, m: Ledger) {
    && m.logs.Keys == l.logs.Keys
    && (forall b :: b in l.voterLogs ==> b in m.voterLogs && m.voterLogs[b] == l.voterLogs[b])
    && (forall term :: term in l.reigns ==>
          term in m.reigns && m.reigns[term].start == l.reigns[term].start
          && Prefix(l.reigns[term].log, m.reigns[term].log))
    && l.acks <= m.acks
    && l.commits <= m.commits
  }

  // ---- What a consistent history implies ----

  /** Terms never decrease along a traced log, and all are at least 1. */
  lemma TracedTermsSorted(t: Tally, l: Ledger, log: seq<LogEntry>, i: nat, j: nat)
    requires Domains(t, l) && ReignsOk(t, l) && Traced(l, log)
    requires i <= j < |log|
    ensures 1 <= log[i].term <= log[j].term
  {
    assert TracedAt(l, log, i) && TracedAt(l, log, j);
    assert ReignOk(t, l, log[j].term) && ReignOk(t, l, log[i].term);
    assert log[i] == l.reigns[log[j].term].log[i];
  }

  /** Log matching: two logs that hold the same term at an index are identical up to it. */
  lemma TracedLogsMatch(l: Ledger, a: seq<LogEntry>, b: seq<LogEntry>, i: nat)
    requires Traced(l, a) && Traced(l, b)
    requires i < |a| && i < |b| && a[i].term == b[i].term
    ensures Agree(a, b, i + 1)
  {
    assert TracedAt(l, a, i) && TracedAt(l, b, i);
  }

  /** Leader completeness: what a quorum acknowledged in `c.term` is in the log of every later leader
      from its election on. */
  lemma {:induction false} LeaderCompleteness(t: Tally, l: Ledger, c: Commit, later: nat)
    requires TallyOk(t) && LedgerOk(t, l)
    requires CommitOk(t, l, c) && later in l.reigns && c.term < later
    ensures Agree(l.reigns[later].start, l.reigns[c.term].log, c.upTo)
    decreases later
  {
    assert WinOk(t, later);
    assert Ackers(l, c) <= t.terms.Keys by {
      forall k | k in l.acks && k.term == c.term && k.upTo == c.upTo
        ensures k.node in t.terms.Keys
      {
        assert AckOk(t, l, k);
      }
    }
    var v := MajoritiesMeet(t.terms.Keys, Ackers(l, c), t.wins[later].voters);
    var k := Ack(v, c.term, c.upTo);
    assert VoteKept(t, l, k, later);
    var voterLog := l.voterLogs[(v, later)];
    if !Agree(voterLog, l.reigns[c.term].log, c.upTo) {
      var between :| c.term < between < later && Lacks(l, c.term, c.upTo, between);
      LeaderCompleteness(t, l, c, between);
    }
    assert ReignOk(t, l, later);
    CandidateCaughtUp(t, l, c, later, voterLog);
  }

  /** `start` follows the log of a leader of term `tc` to an entry of that term; if this leader began with
      the first `i` entries of `log`, all older than `tc`, then `start` has them. */
  lemma PassedOn(start: seq<LogEntry>, tc: nat, r: Reign, log: seq<LogEntry>, i: nat)
    requires start != [] && start[|start| - 1].term == tc && Agree(start, r.log, |start|)
    requires Prefix(r.start, r.log) && Agree(r.start, log, i)
    requires TermsBelow(log, tc)
    ensures Agree(start, log, i)
  {
    assert forall j :: 0 <= j < |r.start| && j < |start| ==> start[j] == r.start[j];
    assert forall j :: 0 <= j < i && j < |start| ==> start[j] == log[j];
  }

  lemma VoterTerms(t: Tally, l: Ledger, c: Commit, voterLog: seq<LogEntry>)
    requires TallyOk(t) && LedgerOk(t, l) && CommitOk(t, l, c)
    requires Traced(l, voterLog) && Agree(voterLog, l.reigns[c.term].log, c.upTo)
    ensures TermOf(voterLog) >= c.term >= 1
  {
    assert ReignShape(l.reigns[c.term], c.term) by {
      assert ReignOk(t, l, c.term);
    }
    assert voterLog[c.upTo - 1].term == c.term;
    TracedTermsSorted(t, l, voterLog, c.upTo - 1, |voterLog| - 1);
  }

  /** A candidate whose log is at least as good as a log that holds the committed entry holds it too. */
  lemma CandidateCaughtUp(t: Tally, l: Ledger, c: Commit, later: nat, voterLog: seq<LogEntry>)
    requires TallyOk(t) && LedgerOk(t, l)
    requires CommitOk(t, l, c) && later in l.reigns && c.term < later
    requires Traced(l, voterLog) && Agree(voterLog, l.reigns[c.term].log, c.upTo)
    requires AtLeast(l.reigns[later].start, voterLog)
    ensures Agree(l.reigns[later].start, l.reigns[c.term].log, c.upTo)
    decreases later, 0
  {
    var start, log := l.reigns[later].start, l.reigns[c.term].log;
    assert ReignShape(l.reigns[later], later) && ReignShape(l.reigns[c.term], c.term) by {
      assert ReignOk(t, l, later) && ReignOk(t, l, c.term);
    }
    VoterTerms(t, l, c, voterLog);
    var last := |start| - 1;
    var tc := start[last].term;
    assert tc in l.reigns && Agree(start, l.reigns[tc].log, |start|) by {
      assert Traced(l, l.reigns[later].log) by {
        assert ReignOk(t, l, later);
      }
      assert TracedAt(l, l.reigns[later].log, last);
    }
    if tc > c.term {
      LeaderCompleteness(t, l, c, tc);
      assert ReignShape(l.reigns[tc], tc) by {
        assert ReignOk(t, l, tc);
      }
      PassedOn(start, tc, l.reigns[tc], log, c.upTo);
    } else {
      assert TracedAt(l, voterLog, |voterLog| - 1);
    }
  }

  // ---- The elementary moves ----

  ghost predicate Consistent(t: Tally, l: Ledger) {
    TallyOk(t) && LedgerOk(t, l)
  }

  lemma GrowsKeepsTraced(l: Ledger, m: Ledger, log: seq<LogEntry>)
    requires Grows(l, m) && Traced(l, log)
    ensures Traced(m, log)
  {
    forall i | 0 <= i < |log|
      ensures TracedAt(m, log, i)
    {
      assert TracedAt(l, log, i);
    }
  }

  /** Extending the history keeps what was kept. */
  lemma GrowsKeepsKept(l: Ledger, m: Ledger, log: seq<LogEntry>, term: nat, i: nat, bound: nat, bound': nat)
    requires Grows(l, m) && term in l.reigns && i <= |l.reigns[term].log|
    requires Kept(l, log, term, i, bound) && bound <= bound'
    ensures Kept(m, log, term, i, bound')
  {
    if !Agree(log, l.reigns[term].log, i) {
      var later :| term < later < bound && Lacks(l, term, i, later);
      assert Lacks(m, term, i, later);
    }
  }

  // Frames: what an extended history keeps of the parts a move does not touch.

  lemma ReignsFrame(t: Tally, u: Tally, l: Ledger, m: Ledger, except: set<nat>)
    requires LedgerOk(t, l) && Grows(l, m)
    requires forall r :: r in t.wins && r !in except ==> r in u.wins && u.wins[r] == t.wins[r]
    requires forall r :: r in l.reigns && r !in except ==> m.reigns[r] == l.reigns[r]
    ensures forall r :: r in l.reigns && r !in except ==> ReignOk(u, m, r)
  {
    forall r | r in l.reigns && r !in except
      ensures ReignOk(u, m, r)
    {
      assert ReignOk(t, l, r);
      GrowsKeepsTraced(l, m, l.reigns[r].log);
    }
  }

  lemma LogsFrame(t: Tally, u: Tally, l: Ledger, m: Ledger, except: set<NodeId>)
    requires LedgerOk(t, l) && Grows(l, m) && u.terms == t.terms
    requires forall x :: x in l.logs && x !in except ==> m.logs[x] == l.logs[x]
    ensures forall x :: x in m.logs && x !in except ==> LogOk(u, m, x)
    ensures forall b :: b in l.voterLogs ==> Traced(m, m.voterLogs[b])
  {
    forall x | x in m.logs && x !in except
      ensures LogOk(u, m, x)
    {
      assert LogOk(t, l, x);
      GrowsKeepsTraced(l, m, l.logs[x]);
    }
    forall b | b in l.voterLogs
      ensures Traced(m, m.voterLogs[b])
    {
      GrowsKeepsTraced(l, m, l.voterLogs[b]);
    }
  }

  lemma AcksFrame(t: Tally, u: Tally, l: Ledger, m: Ledger, except: set<NodeId>)
    requires LedgerOk(t, l) && Grows(l, m) && u.terms == t.terms
    requires forall x :: x in l.logs && x !in except ==> m.logs[x] == l.logs[x]
    ensures forall k :: k in l.acks && k.node !in except ==> AckOk(u, m, k)
  {
    forall k | k in l.acks && k.node !in except
      ensures AckOk(u, m, k)
    {
      assert AckOk(t, l, k);
      GrowsKeepsKept(l, m, l.logs[k.node], k.term, k.upTo, t.terms[k.node] + 1, t.terms[k.node] + 1);
    }
  }

  /** Acknowledgments a node makes in its present term say nothing about the votes it has cast. */
  lemma VotesFrame(t: Tally, u: Tally, l: Ledger, m: Ledger)
    requires Consistent(t, l) && Grows(l, m)
    requires m.voterLogs == l.voterLogs
    requires forall r :: r in t.wins ==> r in u.wins && u.wins[r] == t.wins[r]
    requires forall k :: k in m.acks && k !in l.acks ==> k.node in t.terms && k.term == t.terms[k.node]
    ensures forall k, later: nat :: k in m.acks ==> VoteKept(u, m, k, later)
  {
    forall k, later: nat | k in m.acks
      ensures VoteKept(u, m, k, later)
    {
      if k in l.acks {
        assert AckOk(t, l, k);
        assert VoteKept(t, l, k, later);
        if (k.node, later) in l.voterLogs && k.term < later && (later in u.wins ==> k.node in u.wins[later].voters) {
          GrowsKeepsKept(l, m, l.voterLogs[(k.node, later)], k.term, k.upTo, later, later);
        }
      }
    }
  }

  lemma CommitsFrame(t: Tally, u: Tally, l: Ledger, m: Ledger)
    requires LedgerOk(t, l) && Grows(l, m) && u.terms.Keys == t.terms.Keys
    ensures forall c :: c in l.commits ==> CommitOk(u, m, c)
  {
    forall c | c in l.commits
      ensures CommitOk(u, m, c)
    {
      assert CommitOk(t, l, c);
      AckersGrow(l, m, c);
    }
  }

  /** A move that changes no log and adds no commit keeps the record of acknowledgments in order. */
  lemma SameLogsKeepAcks(t: Tally, u: Tally, l: Ledger, m: Ledger)
    requires Consistent(t, l) && Grows(l, m)
    requires u.terms == t.terms && m.voterLogs == l.voterLogs && m.logs == l.logs
    requires forall r :: r in t.wins ==> r in u.wins && u.wins[r] == t.wins[r]
    requires forall k :: k in m.acks && k !in l.acks ==> AckOk(u, m, k) && k.term == t.terms[k.node]
    requires forall c :: c in m.commits && c !in l.commits ==> CommitOk(u, m, c)
    ensures AcksOk(u, m)
  {
    AcksFrame(t, u, l, m, {});
    VotesFrame(t, u, l, m);
    CommitsFrame(t, u, l, m);
  }

  lemma AckersGrow(l: Ledger, m: Ledger, c: Commit)
    requires l.acks <= m.acks
    ensures |Ackers(l, c)| <= |Ackers(m, c)|
  {
    SubsetSize(Ackers(l, c), Ackers(m, c));
  }

  /** A node enters a higher term. */
  function Raise(t: Tally, n: NodeId, term: nat): Tally {
    t.(terms := t.terms[n := term])
  }

  lemma RaiseKeeps(t: Tally, l: Ledger, n: NodeId, term: nat)
    requires Consistent(t, l) && n in t.terms && term >= t.terms[n]
    ensures Consistent(Raise(t, n, term), l)
  {
    var u := Raise(t, n, term);
    assert u.terms.Keys == t.terms.Keys;
    forall w | w in u.wins
      ensures WinOk(u, w)
    {
      assert WinOk(t, w);
      assert Supporters(u, w, u.wins[w].leader) == Supporters(t, w, t.wins[w].leader);
    }
    ReignsFrame(t, u, l, l, {});
    forall m | m in l.logs
      ensures LogOk(u, l, m)
    {
      assert LogOk(t, l, m);
    }
    forall k | k in l.acks
      ensures AckOk(u, l, k)
    {
      assert AckOk(t, l, k);
    }
    VotesFrame(t, u, l, l);
    CommitsFrame(t, u, l, l);
  }

  /** A node votes for `candidate` in its term. */
  function Cast(t: Tally, n: NodeId, candidate: NodeId): Tally
    requires n in t.terms
  {
    t.(ballots := t.ballots[(n, t.terms[n]) := candidate])
  }

  function CastLog(t: Tally, l: Ledger, n: NodeId): Ledger
    requires n in t.terms && n in l.logs
  {
    l.(voterLogs := l.voterLogs[(n, t.terms[n]) := l.logs[n]])
  }

  lemma CastKeeps(t: Tally, l: Ledger, n: NodeId, candidate: NodeId)
    requires Consistent(t, l) && n in t.terms && (n, t.terms[n]) !in t.ballots
    ensures Consistent(Cast(t, n, candidate), CastLog(t, l, n))
    ensures Grows(l, CastLog(t, l, n))
  {
    var u, m := Cast(t, n, candidate), CastLog(t, l, n);
    assert Grows(l, m);
    forall w | w in u.wins
      ensures WinOk(u, w)
    {
      assert WinOk(t, w);
      assert Supporters(t, w, t.wins[w].leader) <= Supporters(u, w, t.wins[w].leader);
    }
    assert ReignsOk(u, m) by {
      ReignsFrame(t, u, l, m, {});
    }
    assert LogsOk(u, m) by {
      LogsFrame(t, u, l, m, {});
      assert LogOk(u, m, n);
    }
    assert AcksOk(u, m) by {
      AcksFrame(t, u, l, m, {});
      forall k, later: nat | k in m.acks
        ensures VoteKept(u, m, k, later)
      {
        CastVoteKept(t, l, n, candidate, k, later);
      }
      CommitsFrame(t, u, l, m);
    }
  }

  /** A vote cast before its term has a leader still shows all that the voter acknowledged. */
  lemma CastVoteKept(t: Tally, l: Ledger, n: NodeId, candidate: NodeId, k: Ack, later: nat)
    requires Consistent(t, l) && n in t.terms && (n, t.terms[n]) !in t.ballots && k in l.acks
    ensures VoteKept(Cast(t, n, candidate), CastLog(t, l, n), k, later)
  {
    var m := CastLog(t, l, n);
    assert AckOk(t, l, k);
    assert Grows(l, m);
    if k.node == n && later == t.terms[n] && k.term < later && later !in t.wins {
      var log := l.logs[n];
      if !Agree(log, l.reigns[k.term].log, k.upTo) {
        var between :| k.term < between < t.terms[n] + 1 && Lacks(l, k.term, k.upTo, between);
        assert Lacks(m, k.term, k.upTo, between) && between != later;
      }
    } else if k.node == n && later == t.terms[n] && later in t.wins {
      assert WinOk(t, later);
    } else {
      assert VoteKept(t, l, k, later);
      if (k.node, later) in l.voterLogs && k.term < later && (later in t.wins ==> k.node in t.wins[later].voters) {
        GrowsKeepsKept(l, m, l.voterLogs[(k.node, later)], k.term, k.upTo, later, later);
      }
    }
  }

  /** A node wins its term with the votes of `voters`. */
  function Crown(t: Tally, n: NodeId, voters: set<NodeId>): Tally
    requires n in t.terms
  {
    t.(wins := t.wins[t.terms[n] := Win(n, voters)])
  }

  function CrownLog(t: Tally, l: Ledger, n: NodeId): Ledger
    requires n in t.terms && n in l.logs
  {
    l.(reigns := l.reigns[t.terms[n] := Reign(l.logs[n], l.logs[n])])
  }

  lemma CrownTallyOk(t: Tally, n: NodeId, voters: set<NodeId>)
    requires TallyOk(t) && n in t.terms && t.terms[n] !in t.wins
    requires voters <= Supporters(t, t.terms[n], n) && |voters| >= Majority(t.terms.Keys)
    ensures TallyOk(Crown(t, n, voters))
  {
    var u := Crown(t, n, voters);
    forall w | w in u.wins
      ensures WinOk(u, w)
    {
      assert w in t.wins ==> WinOk(t, w);
      assert Supporters(u, w, u.wins[w].leader) == Supporters(t, w, u.wins[w].leader);
    }
  }

  lemma CrownReignOk(t: Tally, l: Ledger, n: NodeId, voters: set<NodeId>)
    requires LedgerOk(t, l) && n in t.terms
    requires t.terms[n] >= 1 && t.terms[n] !in t.wins
    requires voters <= Supporters(t, t.terms[n], n)
    requires forall v :: v in voters ==> AtLeast(l.logs[n], l.voterLogs[(v, t.terms[n])])
    requires Grows(l, CrownLog(t, l, n))
    ensures ReignOk(Crown(t, n, voters), CrownLog(t, l, n), t.terms[n])
  {
    assert LogOk(t, l, n);
    NewReignShape(t, l, l.logs[n], t.terms[n]);
    GrowsKeepsTraced(l, CrownLog(t, l, n), l.logs[n]);
  }

  lemma CrownReignsOk(t: Tally, l: Ledger, n: NodeId, voters: set<NodeId>)
    requires LedgerOk(t, l) && n in t.terms
    requires t.terms[n] >= 1 && t.terms[n] !in t.wins
    requires voters <= Supporters(t, t.terms[n], n)
    requires forall v :: v in voters ==> AtLeast(l.logs[n], l.voterLogs[(v, t.terms[n])])
    requires Grows(l, CrownLog(t, l, n))
    ensures ReignsOk(Crown(t, n, voters), CrownLog(t, l, n))
    ensures LogsOk(Crown(t, n, voters), CrownLog(t, l, n))
  {
    var u, m := Crown(t, n, voters), CrownLog(t, l, n);
    CrownReignOk(t, l, n, voters);
    ReignsFrame(t, u, l, m, {t.terms[n]});
    LogsFrame(t, u, l, m, {});
  }

  lemma CrownKeeps(t: Tally, l: Ledger, n: NodeId, voters: set<NodeId>)
    requires Consistent(t, l) && n in t.terms
    requires t.terms[n] >= 1 && t.terms[n] !in t.wins
    requires voters <= Supporters(t, t.terms[n], n) && |voters| >= Majority(t.terms.Keys)
    requires forall v :: v in voters ==> AtLeast(l.logs[n], l.voterLogs[(v, t.terms[n])])
    ensures Consistent(Crown(t, n, voters), CrownLog(t, l, n))
    ensures Grows(l, CrownLog(t, l, n))
  {
    var u, m := Crown(t, n, voters), CrownLog(t, l, n);
    assert Grows(l, m);
    CrownTallyOk(t, n, voters);
    CrownReignsOk(t, l, n, voters);
    SameLogsKeepAcks(t, u, l, m);
  }

  /** The log of a node whose term has no leader yet holds only older terms. */
  lemma NewReignShape(t: Tally, l: Ledger, log: seq<LogEntry>, term: nat)
    requires LedgerOk(t, l) && term !in l.reigns && term >= 1
    requires Traced(l, log) && TermsBelow(log, term + 1)
    ensures ReignShape(Reign(log, log), term)
  {
    forall i | 0 <= i < |log|
      ensures log[i].term < term && log[i].index == i + 1
    {
      assert TracedAt(l, log, i);
      assert ReignOk(t, l, log[i].term);
    }
  }

  /** The leader of its term appends an entry to its own log. */
  function LeadLog(t: Tally, l: Ledger, n: NodeId, e: LogEntry): Ledger
    requires n in t.terms && n in l.logs && t.terms[n] in l.reigns
  {
    var term, log := t.terms[n], l.logs[n] + [e];
    l.(logs := l.logs[n := log],
       reigns := l.reigns[term := l.reigns[term].(log := log)],
       acks := l.acks + {Ack(n, term, |log|)})
  }

  lemma LeadOwnAcks(t: Tally, l: Ledger, n: NodeId, e: LogEntry)
    requires LedgerOk(t, l) && n in t.terms && t.terms[n] in l.reigns
    requires l.logs[n] == l.reigns[t.terms[n]].log
    requires Grows(l, LeadLog(t, l, n, e))
    ensures forall k :: k in LeadLog(t, l, n, e).acks && k.node == n ==> AckOk(t, LeadLog(t, l, n, e), k)
  {
    forall k | k in LeadLog(t, l, n, e).acks && k.node == n
      ensures AckOk(t, LeadLog(t, l, n, e), k)
    {
      LeadAckOk(t, l, n, e, k);
    }
  }

  lemma LeadAllAcks(t: Tally, l: Ledger, n: NodeId, e: LogEntry)
    requires LedgerOk(t, l) && n in t.terms && t.terms[n] in l.reigns
    requires l.logs[n] == l.reigns[t.terms[n]].log
    requires Grows(l, LeadLog(t, l, n, e))
    ensures forall k :: k in LeadLog(t, l, n, e).acks ==> AckOk(t, LeadLog(t, l, n, e), k)
  {
    LeadOwnAcks(t, l, n, e);
    AcksFrame(t, t, l, LeadLog(t, l, n, e), {n});
  }

  lemma LeadAcksOk(t: Tally, l: Ledger, n: NodeId, e: LogEntry)
    requires Consistent(t, l) && n in t.terms && t.terms[n] in l.reigns
    requires l.logs[n] == l.reigns[t.terms[n]].log
    requires Grows(l, LeadLog(t, l, n, e))
    ensures AcksOk(t, LeadLog(t, l, n, e))
  {
    var m := LeadLog(t, l, n, e);
    LeadAllAcks(t, l, n, e);
    VotesFrame(t, t, l, m);
    CommitsFrame(t, t, l, m);
  }

  lemma LeadKeeps(t: Tally, l: Ledger, n: NodeId, e: LogEntry)
    requires Consistent(t, l) && n in t.terms && t.terms[n] in l.reigns
    requires l.logs[n] == l.reigns[t.terms[n]].log
    requires e.term == t.terms[n] && e.index == |l.logs[n]| + 1
    ensures Consistent(t, LeadLog(t, l, n, e))
    ensures Grows(l, LeadLog(t, l, n, e))
  {
    LeadGrows(t, l, n, e);
    LeadReignOk(t, l, n, e);
    LeadFrames(t, l, n, e);
    LeadAcksOk(t, l, n, e);
    Assembled(t, LeadLog(t, l, n, e));
  }

  lemma LeadGrows(t: Tally, l: Ledger, n: NodeId, e: LogEntry)
    requires LedgerOk(t, l) && n in t.terms && t.terms[n] in l.reigns
    requires l.logs[n] == l.reigns[t.terms[n]].log
    ensures Grows(l, LeadLog(t, l, n, e)) && Domains(t, LeadLog(t, l, n, e))
  {}

  lemma Assembled(t: Tally, m: Ledger)
    requires TallyOk(t) && Domains(t, m) && ReignsOk(t, m) && LogsOk(t, m) && AcksOk(t, m)
    ensures Consistent(t, m)
  {}

  lemma LeadFrames(t: Tally, l: Ledger, n: NodeId, e: LogEntry)
    requires LedgerOk(t, l) && n in t.terms && t.terms[n] in l.reigns
    requires Grows(l, LeadLog(t, l, n, e))
    requires ReignOk(t, LeadLog(t, l, n, e), t.terms[n]) && LogOk(t, LeadLog(t, l, n, e), n)
    ensures ReignsOk(t, LeadLog(t, l, n, e)) && LogsOk(t, LeadLog(t, l, n, e))
  {
    var m := LeadLog(t, l, n, e);
    ReignsFrame(t, t, l, m, {t.terms[n]});
    LogsFrame(t, t, l, m, {n});
  }

  lemma LeadReignOk(t: Tally, l: Ledger, n: NodeId, e: LogEntry)
    requires LedgerOk(t, l) && n in t.terms && t.terms[n] in l.reigns
    requires l.logs[n] == l.reigns[t.terms[n]].log
    requires e.term == t.terms[n] && e.index == |l.logs[n]| + 1
    requires Grows(l, LeadLog(t, l, n, e))
    ensures ReignOk(t, LeadLog(t, l, n, e), t.terms[n])
    ensures LogOk(t, LeadLog(t, l, n, e), n)
  {
    var m, term := LeadLog(t, l, n, e), t.terms[n];
    var log := m.logs[n];
    assert ReignOk(t, l, term) && LogOk(t, l, n);
    GrowsKeepsTraced(l, m, l.logs[n]);
    forall i | 0 <= i < |log|
      ensures TracedAt(m, log, i)
    {
      if i < |l.logs[n]| {
        assert TracedAt(m, l.logs[n], i);
      }
    }
  }

  lemma LongerKeepsKept(l: Ledger, a: seq<LogEntry>, b: seq<LogEntry>, term: nat, i: nat, bound: nat)
    requires term in l.reigns && Prefix(a, b) && Kept(l, a, term, i, bound)
    ensures Kept(l, b, term, i, bound)
  {}

  lemma LeadAckOk(t: Tally, l: Ledger, n: NodeId, e: LogEntry, k: Ack)
    requires LedgerOk(t, l) && n in t.terms && t.terms[n] in l.reigns
    requires l.logs[n] == l.reigns[t.terms[n]].log
    requires Grows(l, LeadLog(t, l, n, e))
    requires k in LeadLog(t, l, n, e).acks && k.node == n
    ensures AckOk(t, LeadLog(t, l, n, e), k)
  {
    var m := LeadLog(t, l, n, e);
    if k in l.acks {
      assert AckOk(t, l, k);
      LongerKeepsKept(l, l.logs[n], m.logs[n], k.term, k.upTo, t.terms[n] + 1);
      GrowsKeepsKept(l, m, m.logs[n], k.term, k.upTo, t.terms[n] + 1, t.terms[n] + 1);
    }
  }

  /** How a log may change under the leader whose log is `leader`: it stays, or becomes a prefix of that
      log, and loses nothing it shared with it. */
  ghost predicate Advances(before: seq<LogEntry>, after: seq<LogEntry>, leader: seq<LogEntry>) {
    && (after == before || Prefix(after, leader))
    && forall j :: Agree(before, leader, j) ==> Agree(after, leader, j)
  }

  lemma AdoptAckOk(t: Tally, l: Ledger, n: NodeId, after: seq<LogEntry>, k: Ack)
    requires n in t.terms && n in l.logs && t.terms[n] in l.reigns && ReignShape(l.reigns[t.terms[n]], t.terms[n])
    requires Advances(l.logs[n], after, l.reigns[t.terms[n]].log)
    requires AckOk(t, l, k) && k.node == n
    ensures AckOk(t, l.(logs := l.logs[n := after]), k)
  {
    AdoptKeepsAcked(t, l, n, after, k);
    GrowsKeepsKept(l, l.(logs := l.logs[n := after]), after, k.term, k.upTo, t.terms[n] + 1, t.terms[n] + 1);
  }

  lemma AdoptAcksOk(t: Tally, l: Ledger, n: NodeId, after: seq<LogEntry>)
    requires Consistent(t, l) && n in t.terms && t.terms[n] in l.reigns
    requires Advances(l.logs[n], after, l.reigns[t.terms[n]].log)
    requires Grows(l, l.(logs := l.logs[n := after]))
    ensures AcksOk(t, l.(logs := l.logs[n := after]))
  {
    var m := l.(logs := l.logs[n := after]);
    AcksFrame(t, t, l, m, {n});
    assert ReignOk(t, l, t.terms[n]);
    forall k | k in m.acks && k.node == n
      ensures AckOk(t, m, k)
    {
      AdoptAckOk(t, l, n, after, k);
    }
    VotesFrame(t, t, l, m);
    CommitsFrame(t, t, l, m);
  }

  lemma AdoptKeeps(t: Tally, l: Ledger, n: NodeId, after: seq<LogEntry>)
    requires Consistent(t, l) && n in t.terms && t.terms[n] in l.reigns
    requires Advances(l.logs[n], after, l.reigns[t.terms[n]].log)
    ensures Consistent(t, l.(logs := l.logs[n := after]))
    ensures Grows(l, l.(logs := l.logs[n := after]))
  {
    var m, term := l.(logs := l.logs[n := after]), t.terms[n];
    assert Grows(l, m);
    assert ReignsOk(t, m) by {
      ReignsFrame(t, t, l, m, {});
    }
    assert LogsOk(t, m) by {
      LogsFrame(t, t, l, m, {n});
      assert ReignOk(t, l, term) && LogOk(t, l, n);
      AdoptedLogOk(t, l, m, after, term);
    }
    assert AcksOk(t, m) by {
      AdoptAcksOk(t, l, n, after);
    }
  }

  lemma AdoptedLogOk(t: Tally, l: Ledger, m: Ledger, after: seq<LogEntry>, term: nat)
    requires Grows(l, m) && term in l.reigns && term in t.wins && ReignOk(t, l, term)
    requires Prefix(after, l.reigns[term].log) || (Traced(l, after) && TermsBelow(after, term + 1))
    ensures Traced(m, after) && TermsBelow(after, term + 1)
  {
    var log := l.reigns[term].log;
    if Prefix(after, log) {
      GrowsKeepsTraced(l, m, log);
      forall i | 0 <= i < |after|
        ensures TracedAt(m, after, i)
      {
        assert TracedAt(m, log, i);
      }
    } else {
      GrowsKeepsTraced(l, m, after);
    }
  }

  /** Following a leader loses nothing acknowledged, unless that leader was elected without it. */
  lemma AdoptKeepsAcked(t: Tally, l: Ledger, n: NodeId, after: seq<LogEntry>, k: Ack)
    requires n in t.terms && n in l.logs && t.terms[n] in l.reigns && ReignShape(l.reigns[t.terms[n]], t.terms[n])
    requires Advances(l.logs[n], after, l.reigns[t.terms[n]].log)
    requires AckOk(t, l, k) && k.node == n
    ensures Kept(l, after, k.term, k.upTo, t.terms[n] + 1)
  {
    var term, before := t.terms[n], l.logs[n];
    var leader := l.reigns[term].log;
    var acked := l.reigns[k.term].log;
    if Agree(before, acked, k.upTo) {
      if k.term < term && !Lacks(l, k.term, k.upTo, term) {
        assert Agree(leader, acked, k.upTo);
      }
      assert k.term < term ==> Lacks(l, k.term, k.upTo, term) || Agree(before, leader, k.upTo);
    }
  }

  /** A node holds the leader's log up to `i` and says so. */
  lemma AckKeeps(t: Tally, l: Ledger, n: NodeId, i: nat)
    requires Consistent(t, l) && n in t.terms && t.terms[n] in l.reigns
    requires Agree(l.logs[n], l.reigns[t.terms[n]].log, i)
    ensures Consistent(t, l.(acks := l.acks + {Ack(n, t.terms[n], i)}))
    ensures Grows(l, l.(acks := l.acks + {Ack(n, t.terms[n], i)}))
  {
    var m := l.(acks := l.acks + {Ack(n, t.terms[n], i)});
    assert Grows(l, m);
    assert ReignsOk(t, m) by {
      ReignsFrame(t, t, l, m, {});
    }
    assert LogsOk(t, m) by {
      LogsFrame(t, t, l, m, {});
    }
    assert AcksOk(t, m) by {
      SameLogsKeepAcks(t, t, l, m);
    }
  }

  /** A leader counted a quorum of acknowledgments for an entry of its own term. */
  lemma CommitKeeps(t: Tally, l: Ledger, c: Commit)
    requires Consistent(t, l) && CommitOk(t, l, c)
    ensures Consistent(t, l.(commits := l.commits + {c}))
    ensures Grows(l, l.(commits := l.commits + {c}))
  {
    var m := l.(commits := l.commits + {c});
    assert Grows(l, m);
    assert ReignsOk(t, m) by {
      ReignsFrame(t, t, l, m, {});
    }
    assert LogsOk(t, m) by {
      LogsFrame(t, t, l, m, {});
    }
    assert AcksOk(t, m) by {
      SameLogsKeepAcks(t, t, l, m);
      AckersGrow(l, m, c);
    }
  }
}
