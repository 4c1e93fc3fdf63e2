/** Where the code departs from the Raft paper, each with the exact condition under which it does not. */
module Departures {
  import opened Bytes
  import opened Log
  import opened NodeModel
  import M = Merge

  // ---- AppendEntries on a compacted follower ----

  /** One merged entry lands at its own index exactly when that index is past the snapshot point, or is the snapshot
      point with the same term. Otherwise it is appended, as a copy, at the end of the log. */
  lemma MergeOneLands(log: Log, e: LogEntry)
    requires log.Valid() && 1 <= e.index <= log.LastIndex() + 1
    ensures MergeOne(log, e).TermAt(e.index) == Some(e.term)
            <==> e.index > log.snapshotIndex || (e.index == log.snapshotIndex && e.term == log.snapshotTerm)
    ensures MergeOne(log, e).TermAt(e.index) != Some(e.term) ==> MergeOne(log, e) == log.Append(e.term, e.data)
  {
    if e.index > log.snapshotIndex {
      var cut := log.TruncateFrom(e.index);
      assert log.Append(e.term, e.data).LastIndex() == log.LastIndex() + 1;
      if e.index <= log.LastIndex() {
        assert cut.LastIndex() == e.index - 1;
      }
    }
  }

  /** The entries as a log that ends at `last` stores them when it takes them for new. */
  function Copies(entries: seq<LogEntry>, last: nat): (r: seq<LogEntry>)
    ensures |r| == |entries| && Numbered(r, last)
  {
    seq(|entries|, i requires 0 <= i < |entries| => LogEntry(entries[i].term, last + 1 + i, entries[i].data))
  }

  /** Entries from before the snapshot point are all appended again. */
  lemma {:induction false} OldEntriesAreCopied(log: Log, entries: seq<LogEntry>)
    requires log.Valid() && forall i :: 0 <= i < |entries| ==> 1 <= entries[i].index < log.snapshotIndex
    ensures Merge(log, entries) == log.(entries := log.entries + Copies(entries, log.LastIndex()))
    decreases |entries|
  {
    if entries == [] {
      assert log.entries + [] == log.entries;
    } else {
      var e, next := entries[0], MergeOne(log, entries[0]);
      assert next == log.Append(e.term, e.data);
      OldEntriesAreCopied(next, entries[1..]);
      assert Copies(entries, log.LastIndex()) == [LogEntry(e.term, log.LastIndex() + 1, e.data)]
                                                 + Copies(entries[1..], next.LastIndex());
    }
  }

  /** A leader that has no previous index to check sends entries 1, 2, ...; a follower that has compacted past them
      answers success and stores them again behind its log. */
  lemma OldEntriesAreDuplicated(s: NodeState, req: AppendRequest)
    requires s.log.Valid() && req.term >= s.term && req.prevLogIndex == 0
    requires Numbered(req.entries, 0) && |req.entries| < s.log.snapshotIndex
    ensures var (n, resp) := OnAppendEntries(s, req);
            resp.success && n.log.entries == s.log.entries + Copies(req.entries, s.log.LastIndex())
  {
    OldEntriesAreCopied(s.log, req.entries);
  }

  /** Of a request from the very beginning: the entries that are stored a second time. */
  function Again(log: Log, entries: seq<LogEntry>): seq<LogEntry> {
    var s := log.snapshotIndex;
    if s == 0 then []
    else if |entries| < s then entries
    else if entries[s - 1].term == log.snapshotTerm then entries[..s - 1] else entries[..s]
  }

  /** And those after the snapshot point. */
  function Beyond(log: Log, entries: seq<LogEntry>): seq<LogEntry> {
    if |entries| < log.snapshotIndex then [] else entries[log.snapshotIndex..]
  }

  lemma {:induction false} MergeConcat(log: Log, a: seq<LogEntry>, b: seq<LogEntry>)
    ensures Merge(log, a + b) == Merge(Merge(log, a), b)
    decreases |a|
  {
    if a == [] {
      assert a + b == b;
    } else {
      assert (a + b)[1..] == a[1..] + b;
      MergeConcat(MergeOne(log, a[0]), a[1..], b);
    }
  }

  function Stored(log: Log, again: seq<LogEntry>): Log {
    log.(entries := log.entries + Copies(again, log.LastIndex()))
  }

  lemma StoredSnoc(log: Log, again: seq<LogEntry>, e: LogEntry)
    ensures Stored(log, again + [e]) == Stored(log, again).Append(e.term, e.data)
  {
    var copied := Stored(log, again);
    assert Copies(again + [e], log.LastIndex())
        == Copies(again, log.LastIndex()) + [LogEntry(e.term, copied.LastIndex() + 1, e.data)];
    assert Stored(log, again + [e]).entries == copied.entries + [LogEntry(e.term, copied.LastIndex() + 1, e.data)];
  }

  lemma MergeUpToMarker(log: Log, again: seq<LogEntry>, at: LogEntry)
    requires log.Valid() && at.index == log.snapshotIndex >= 1
    requires forall i :: 0 <= i < |again| ==> 1 <= again[i].index < log.snapshotIndex
    ensures Merge(log, again + [at]) == Stored(log, if at.term == log.snapshotTerm then again else again + [at])
  {
    OldEntriesAreCopied(log, again);
    MergeConcat(log, again, [at]);
    assert Merge(Stored(log, again), [at]) == MergeOne(Stored(log, again), at) by {
      assert [at][1..] == [];
    }
    StoredSnoc(log, again, at);
  }

  lemma MergeAcrossMarker(log: Log, again: seq<LogEntry>, at: LogEntry, rest: seq<LogEntry>)
    requires log.Valid() && at.index == log.snapshotIndex >= 1
    requires forall i :: 0 <= i < |again| ==> 1 <= again[i].index < log.snapshotIndex
    ensures Merge(log, (again + [at]) + rest)
            == Merge(Stored(log, if at.term == log.snapshotTerm then again else again + [at]), rest)
  {
    MergeUpToMarker(log, again, at);
    MergeConcat(log, again + [at], rest);
  }

  /** Such a request merges as if the copies had been in the log and only the rest had been sent. */
  lemma MergeFromTheStart(log: Log, entries: seq<LogEntry>)
    requires log.Valid() && Numbered(entries, 0)
    ensures Merge(log, entries) == Merge(Stored(log, Again(log, entries)), Beyond(log, entries))
  {
    var s := log.snapshotIndex;
    if s == 0 {
      assert log.entries + [] == log.entries && entries[0..] == entries;
    } else if |entries| < s {
      OldEntriesAreCopied(log, entries);
    } else {
      var below, at, rest := entries[..s - 1], entries[s - 1], entries[s..];
      MergeAcrossMarker(log, below, at, rest);
      assert entries[..s] == below + [at];
      assert entries == (below + [at]) + rest;
    }
  }

  /** The copies do no harm: there are none, or a conflict in the log proper cuts them off, or those that are not cut
      off are the very entries they stand in for. */
  ghost predicate Harmless(log: Log, copies: seq<LogEntry>, rest: seq<LogEntry>) {
    var j, held := M.Matched(log, rest), |log.entries|;
    var k := M.Matched(log.(entries := log.entries + copies), rest);
    || copies == []
    || (j < |rest| && (|| j < held
                       || (held <= k <= held + |copies| && rest[held..k] == copies[..k - held]
                           && (k == |rest| ==> k == held + |copies|))))
  }

  lemma MatchedFurther(log: Log, more: seq<LogEntry>, rest: seq<LogEntry>)
    requires log.Valid() && Numbered(more, log.LastIndex()) && Numbered(rest, log.snapshotIndex)
    ensures var j, k := M.Matched(log, rest), M.Matched(log.(entries := log.entries + more), rest);
            && j <= |log.entries| && j <= k <= |log.entries| + |more|
            && (j < |log.entries| || j == |rest| ==> k == j)
  {
    var longer := log.(entries := log.entries + more);
    var j, k := M.Matched(log, rest), M.Matched(longer, rest);
    assert forall i :: 0 <= i < |rest| && M.Matches(log, rest[i]) ==> M.Matches(longer, rest[i]);
    if j > 0 {
      assert M.Matches(log, rest[j - 1]);
    }
    if k > 0 {
      assert M.Matches(longer, rest[k - 1]);
    }
    if j < |rest| && j < |log.entries| {
      assert !M.Matches(longer, rest[j]);
    }
  }

  /** The entries of a log once the first `j` of the request have been found in it. */
  function Joined(held: seq<LogEntry>, rest: seq<LogEntry>, j: nat): seq<LogEntry>
    requires j <= |rest| && j <= |held|
  {
    if j == |rest| then held else held[..j] + rest[j..]
  }

  lemma SplicesCompared(log: Log, copies: seq<LogEntry>, rest: seq<LogEntry>, j: nat, k: nat)
    requires j <= |log.entries| && j <= k <= |log.entries| + |copies| && j <= |rest| && k <= |rest|
    requires j < |log.entries| || j == |rest| ==> k == j
    ensures var held := |log.entries|;
            Joined(log.entries + copies, rest, k) == Joined(log.entries, rest, j)
            <==> copies == [] || (j < |rest| && (|| j < held
                                                 || (held <= k && rest[held..k] == copies[..k - held]
                                                     && (k == |rest| ==> k == held + |copies|))))
  {
    var longer, held := log.entries + copies, |log.entries|;
    if j == |rest| {
      assert |longer| == held + |copies|;
      assert copies == [] ==> longer == log.entries;
    } else if j < held {
      assert longer[..j] == log.entries[..j];
    } else {
      assert log.entries[..j] == log.entries;
      assert longer[..k] == log.entries + copies[..k - held];
      assert rest[j..] == rest[held..k] + rest[k..];
      if k == |rest| {
        assert rest[k..] == [];
        assert longer == log.entries + rest[held..] <==> copies == rest[held..] by {
          if longer == log.entries + rest[held..] {
            assert longer[held..] == copies && (log.entries + rest[held..])[held..] == rest[held..];
          }
        }
      } else {
        var a, b := log.entries + copies[..k - held] + rest[k..], log.entries + rest[held..k] + rest[k..];
        if a == b {
          assert a[held..k] == copies[..k - held] && b[held..k] == rest[held..k];
        }
      }
    }
  }

  lemma MergeJoins(log: Log, rest: seq<LogEntry>)
    requires log.Valid() && Numbered(rest, log.snapshotIndex)
    ensures M.Matched(log, rest) <= |log.entries|
    ensures Merge(log, rest) == log.(entries := Joined(log.entries, rest, M.Matched(log, rest)))
  {
    M.MergeIsSplice(log, log.snapshotIndex, rest);
  }

  lemma TwoSplices(log: Log, copies: seq<LogEntry>, rest: seq<LogEntry>)
    requires log.Valid() && Numbered(copies, log.LastIndex()) && Numbered(rest, log.snapshotIndex)
    ensures Merge(log.(entries := log.entries + copies), rest) == Merge(log, rest) <==> Harmless(log, copies, rest)
  {
    var longer := log.(entries := log.entries + copies);
    MergeJoins(longer, rest);
    MergeJoins(log, rest);
    MatchedFurther(log, copies, rest);
    SplicesCompared(log, copies, rest, M.Matched(log, rest), M.Matched(longer, rest));
  }

  /** A request from the very beginning gives a compacted follower the log it should, which is its own with what comes
      after its snapshot point merged in, if and only if the copies do no harm. */
  lemma CopiesMustBeHarmless(log: Log, entries: seq<LogEntry>)
    requires log.Valid() && Numbered(entries, 0)
    ensures Merge(log, entries) == Merge(log, Beyond(log, entries))
            <==> Harmless(log, Copies(Again(log, entries), log.LastIndex()), Beyond(log, entries))
  {
    MergeFromTheStart(log, entries);
    TwoSplices(log, Copies(Again(log, entries), log.LastIndex()), Beyond(log, entries));
  }

  // ---- InstallSnapshot ----

  /** What section 7 of the Raft paper keeps: the entries after the snapshot if the log agrees with it at its last
      entry, and nothing otherwise. */
  function Prescribed(log: Log, index: nat, term: nat): Log {
    if log.TermAt(index) == Some(term) then log.InstallSnapshot(index, term) else Log(index, term, [])
  }

  /** The code keeps the later entries in any case: it agrees with the paper exactly when the terms agree or there are
      no later entries. */
  lemma InstallKeepsTail(log: Log, index: nat, term: nat)
    requires log.Valid() && index > log.snapshotIndex
    ensures log.InstallSnapshot(index, term) == Prescribed(log, index, term)
            <==> log.TermAt(index) == Some(term) || log.LastIndex() <= index
    ensures forall j :: j > index ==> log.InstallSnapshot(index, term).TermAt(j) == log.TermAt(j)
  {
    FiltersAreSlices(log.entries, log.snapshotIndex, index);
  }

  // ---- Acknowledgments ----

  /** Successful responses, of both kinds. */
  function Successes(results: seq<Option<Response>>, i: nat): nat
    requires i <= |results|
    decreases |results| - i
  {
    if i == |results| then 0
    else Successes(results, i + 1)
         + match results[i]
           case Some(AppendReply(resp)) => if resp.success then 1 else 0
           case Some(InstallReply(resp)) => if resp.success then 1 else 0
           case _ => 0
  }

  ghost predicate NoHigherTerm(results: seq<Option<Response>>, term: nat) {
    forall i :: 0 <= i < |results| && results[i].Some? ==>
      match results[i].value
      case AppendReply(resp) => resp.term <= term
      case InstallReply(resp) => resp.term <= term
      case VoteReply(_) => true
  }

  function AppendSuccesses(results: seq<Option<Response>>, i: nat): nat
    requires i <= |results|
    decreases |results| - i
  {
    if i == |results| then 0
    else AppendSuccesses(results, i + 1)
         + if results[i].Some? && results[i].value.AppendReply? && results[i].value.append.success then 1 else 0
  }

  function InstallSuccesses(results: seq<Option<Response>>, i: nat): nat
    requires i <= |results|
    decreases |results| - i
  {
    if i == |results| then 0
    else InstallSuccesses(results, i + 1)
         + if results[i].Some? && results[i].value.InstallReply? && results[i].value.install.success then 1 else 0
  }

  lemma {:induction false} AppendsCounted(s: NodeState, peers: seq<NodeId>, results: seq<Option<Response>>, i: nat,
      upTo: nat, acks: nat)
    requires |peers| == |results| && i <= |results| && NoHigherTerm(results, s.term)
    ensures var c := CountAppends(s, peers, results, i, upTo, acks);
            && c.count == acks + AppendSuccesses(results, i) && !c.steppedDown
            && c.node.term == s.term && c.node.config == s.config
    decreases |results| - i
  {
    if i < |results| {
      if !(results[i].Some? && results[i].value.AppendReply?) {
        AppendsCounted(s, peers, results, i + 1, upTo, acks);
      } else {
        var resp := results[i].value.append;
        AppendsCounted(TakeAppendReply(s, peers[i], resp, upTo), peers, results, i + 1, upTo,
                       if resp.success then acks + 1 else acks);
      }
    }
  }

  lemma {:induction false} InstallsCounted(s: NodeState, peers: seq<NodeId>, results: seq<Option<Response>>, i: nat,
      acks: nat)
    requires |peers| == |results| && i <= |results| && NoHigherTerm(results, s.term)
    ensures var c := CountInstalls(s, peers, results, i, acks);
            c.count == acks + InstallSuccesses(results, i) && !c.steppedDown
    decreases |results| - i
  {
    if i < |results| {
      if !(results[i].Some? && results[i].value.InstallReply?) {
        InstallsCounted(s, peers, results, i + 1, acks);
      } else {
        var resp := results[i].value.install;
        InstallsCounted(TakeInstallReply(s, peers[i], resp), peers, results, i + 1,
                        if resp.success then acks + 1 else acks);
      }
    }
  }

  lemma {:induction false} SuccessesAdd(results: seq<Option<Response>>, i: nat)
    requires i <= |results|
    ensures Successes(results, i) == AppendSuccesses(results, i) + InstallSuccesses(results, i)
    decreases |results| - i
  {
    if i < |results| {
      SuccessesAdd(results, i + 1);
    }
  }

  /** A round that meets no higher term commits exactly when the leader and the peers that succeeded, at appending or
      at installing a snapshot, make a quorum. */
  lemma EverySuccessCounts(s: NodeState, upTo: nat, results: seq<Option<Response>>, saved: bool)
    requires |results| == |s.config.peers| && NoHigherTerm(results, s.term)
    ensures FinishWrite(s, upTo, results, saved).1
            == if 1 + Successes(results, 0) >= s.config.Quorum() then Committed(upTo) else Failed(QuorumNotReached)
  {
    AppendsCounted(s, s.config.peers, results, 0, upTo, 1);
    var c := CountAppends(s, s.config.peers, results, 0, upTo, 1);
    InstallsCounted(c.node, s.config.peers, results, 0, c.count);
    SuccessesAdd(results, 0);
  }
}
