/** What an accepted AppendEntries request does to the log, exactly. */
module Merge {
  import opened Bytes
  import opened Log
  import opened NodeModel

  /** Entries numbered on from `prev`, where `prev` is in the retained part of the log. */
  ghost predicate Fitting(log: Log, prev: nat, entries: seq<LogEntry>) {
    log.Valid() && log.snapshotIndex <= prev <= log.LastIndex() && Numbered(entries, prev)
  }

  predicate Matches(log: Log, e: LogEntry) {
    log.TermAt(e.index) == Some(e.term)
  }

  /** How many of the entries, from the first, the log already has by index and term. */
  function Matched(log: Log, entries: seq<LogEntry>): (j: nat)
    ensures j <= |entries|
    ensures forall i :: 0 <= i < j ==> Matches(log, entries[i])
    ensures j < |entries| ==> !Matches(log, entries[j])
  {
    if entries == [] || !Matches(log, entries[0]) then 0 else 1 + Matched(log, entries[1..])
  }

  /** The log cut at the first index that conflicts or is missing, followed by the rest of the request. */
  function Spliced(log: Log, prev: nat, entries: seq<LogEntry>): Log
    requires log.snapshotIndex <= prev
    requires prev + Matched(log, entries) <= log.LastIndex()
  {
    var j := Matched(log, entries);
    if j == |entries| then log else log.(entries := log.entries[..prev + j - log.snapshotIndex] + entries[j..])
  }

  lemma {:induction false} MatchedReaches(log: Log, prev: nat, entries: seq<LogEntry>)
    requires Fitting(log, prev, entries)
    ensures prev + Matched(log, entries) <= log.LastIndex()
  {
    var j := Matched(log, entries);
    if j > 0 {
      assert Matches(log, entries[j - 1]);
    }
  }

  /** Entries past the end of the log are appended as they are. */
  lemma {:induction false} MergePastEnd(log: Log, entries: seq<LogEntry>)
    requires Fitting(log, log.LastIndex(), entries)
    ensures Merge(log, entries) == log.(entries := log.entries + entries)
    ensures forall w :: w in MergeWrites(log, entries) ==> Between(log.entries, w, Merge(log, entries))
    decreases |entries|
  {
    if entries == [] {
      assert log.entries + [] == log.entries;
    } else {
      var e, rest := entries[0], entries[1..];
      var next := MergeOne(log, e);
      assert next == log.Append(e.term, e.data) && e == LogEntry(e.term, log.LastIndex() + 1, e.data);
      MergePastEnd(next, rest);
      assert log.entries + entries == next.entries + rest;
      forall w | w in MergeWrites(log, entries)
        ensures Between(log.entries, w, Merge(log, entries))
      {
        assert w == next || w in MergeWrites(next, rest);
        assert w != next ==> Between(next.entries, w, Merge(log, entries));
      }
    }
  }

  /** `w` differs from `end` only in being cut, and still has all of `kept`. */
  ghost predicate Between(kept: seq<LogEntry>, w: Log, end: Log) {
    && w.snapshotIndex == end.snapshotIndex && w.snapshotTerm == end.snapshotTerm
    && |kept| <= |w.entries| <= |end.entries|
    && w.entries == end.entries[..|w.entries|]
    && kept == end.entries[..|kept|]
  }

  lemma BetweenCuts(kept: seq<LogEntry>, entries: seq<LogEntry>, end: Log)
    requires entries != [] && end.entries == kept + entries
    ensures Between(kept, end.(entries := kept), end)
    ensures Between(kept, end.(entries := kept + [entries[0]]), end)
  {}

  lemma BetweenMore(kept: seq<LogEntry>, more: seq<LogEntry>, w: Log, end: Log)
    requires Between(kept + more, w, end)
    ensures Between(kept, w, end)
  {
    assert kept == (kept + more)[..|kept|];
  }

  /** Merging one entry that conflicts or is missing: cut, then append it as it is. */
  lemma MergeOneCuts(log: Log, prev: nat, e: LogEntry)
    requires log.Valid() && log.snapshotIndex <= prev <= log.LastIndex()
    requires e.index == prev + 1 && !Matches(log, e)
    ensures var kept := log.entries[..prev - log.snapshotIndex];
            && MergeOne(log, e) == log.(entries := kept + [e])
            && forall w :: w in MergeOneWrites(log, e) ==> w == log.(entries := kept) || w == MergeOne(log, e)
  {
    var kept := log.entries[..prev - log.snapshotIndex];
    var cut := log.(entries := kept);
    assert log.TruncateFrom(e.index) == cut;
    assert cut.Append(e.term, e.data) == log.(entries := kept + [e]);
    assert prev == log.LastIndex() ==> kept == log.entries;
  }

  /** The case of a conflict or gap at the very first entry. */
  lemma SpliceAtOnce(log: Log, prev: nat, entries: seq<LogEntry>, kept: seq<LogEntry>)
    requires Fitting(log, prev, entries) && entries != [] && !Matches(log, entries[0])
    requires kept == log.entries[..prev - log.snapshotIndex]
    ensures Merge(log, entries) == log.(entries := kept + entries)
    ensures forall w :: w in MergeWrites(MergeOne(log, entries[0]), entries[1..]) ==>
              Between(kept + [entries[0]], w, Merge(log, entries))
  {
    var e, rest := entries[0], entries[1..];
    var next := log.(entries := kept + [e]);
    assert MergeOne(log, e) == next by {
      MergeOneCuts(log, prev, e);
    }
    assert Fitting(next, next.LastIndex(), rest);
    MergePastEnd(next, rest);
    assert next.entries + rest == kept + entries;
  }

  lemma SpliceWrites(log: Log, prev: nat, entries: seq<LogEntry>, kept: seq<LogEntry>, w: Log)
    requires Fitting(log, prev, entries) && entries != [] && !Matches(log, entries[0])
    requires kept == log.entries[..prev - log.snapshotIndex]
    requires w in MergeWrites(log, entries)
    ensures Between(kept, w, Merge(log, entries))
  {
    SpliceAtOnce(log, prev, entries, kept);
    var end := Merge(log, entries);
    if w in MergeOneWrites(log, entries[0]) {
      MergeOneCuts(log, prev, entries[0]);
      BetweenCuts(kept, entries, end);
    } else {
      BetweenMore(kept, [entries[0]], w, end);
    }
  }

  /** The records of a merge: each leaves the final log, cut somewhere past the match. */
  ghost predicate WritesBetween(log: Log, prev: nat, entries: seq<LogEntry>)
    requires log.snapshotIndex <= prev && prev + Matched(log, entries) <= log.LastIndex()
  {
    forall w :: w in MergeWrites(log, entries) ==>
      && Matched(log, entries) < |entries|
      && Between(log.entries[..prev + Matched(log, entries) - log.snapshotIndex], w, Merge(log, entries))
  }

  lemma SpliceHere(log: Log, prev: nat, entries: seq<LogEntry>)
    requires Fitting(log, prev, entries) && entries != [] && !Matches(log, entries[0])
    ensures Merge(log, entries) == Spliced(log, prev, entries) && WritesBetween(log, prev, entries)
  {
    var kept := log.entries[..prev - log.snapshotIndex];
    SpliceAtOnce(log, prev, entries, kept);
    assert entries[0..] == entries;
    forall w | w in MergeWrites(log, entries)
      ensures Between(kept, w, Merge(log, entries))
    {
      SpliceWrites(log, prev, entries, kept, w);
    }
  }

  lemma SpliceLater(log: Log, prev: nat, entries: seq<LogEntry>)
    requires entries != [] && Matches(log, entries[0]) && log.snapshotIndex <= prev
    requires prev + 1 + Matched(log, entries[1..]) <= log.LastIndex()
    requires Merge(log, entries[1..]) == Spliced(log, prev + 1, entries[1..])
    requires WritesBetween(log, prev + 1, entries[1..])
    ensures Matched(log, entries) == 1 + Matched(log, entries[1..])
    ensures Merge(log, entries) == Spliced(log, prev, entries) && WritesBetween(log, prev, entries)
  {
    var j := Matched(log, entries[1..]);
    assert entries[1..][j..] == entries[j + 1..];
    assert MergeWrites(log, entries) == MergeWrites(log, entries[1..]);
  }

  /** Exact merge: matching entries change nothing; otherwise the log is cut at the first conflict or gap and
      the remaining entries follow. What is on disk meanwhile is that result, cut somewhere past the match. */
  lemma {:induction false} MergeIsSplice(log: Log, prev: nat, entries: seq<LogEntry>)
    requires Fitting(log, prev, entries)
    ensures prev + Matched(log, entries) <= log.LastIndex()
    ensures Merge(log, entries) == Spliced(log, prev, entries) && WritesBetween(log, prev, entries)
    decreases |entries|
  {
    MatchedReaches(log, prev, entries);
    if entries != [] {
      if Matches(log, entries[0]) {
        MergeIsSplice(log, prev + 1, entries[1..]);
        SpliceLater(log, prev, entries);
      } else {
        SpliceHere(log, prev, entries);
      }
    }
  }

  /** After a merge every entry of the request is in the log, whatever was there before. */
  lemma MergeDelivers(log: Log, prev: nat, entries: seq<LogEntry>, i: nat)
    requires Fitting(log, prev, entries) && i < |entries|
    ensures Matches(Merge(log, entries), entries[i])
    ensures Merge(log, entries).Valid()
  {
    MergeIsSplice(log, prev, entries);
    SplicedIsValid(log, prev, entries);
    if i < Matched(log, entries) {
      SplicedKeeps(log, prev, entries, i);
    } else {
      SplicedAdds(log, prev, entries, i);
    }
  }

  lemma SplicedKeeps(log: Log, prev: nat, entries: seq<LogEntry>, i: nat)
    requires Fitting(log, prev, entries) && prev + Matched(log, entries) <= log.LastIndex()
    requires i < Matched(log, entries)
    ensures Matches(Spliced(log, prev, entries), entries[i])
  {
    assert Matches(log, entries[i]);
  }

  lemma SplicedAdds(log: Log, prev: nat, entries: seq<LogEntry>, i: nat)
    requires Fitting(log, prev, entries) && prev + Matched(log, entries) <= log.LastIndex()
    requires Matched(log, entries) <= i < |entries|
    ensures Matches(Spliced(log, prev, entries), entries[i])
  {
    var j := Matched(log, entries);
    var kept := log.entries[..prev + j - log.snapshotIndex];
    assert (kept + entries[j..])[|kept| + i - j] == entries[i];
  }

  lemma SplicedIsValid(log: Log, prev: nat, entries: seq<LogEntry>)
    requires Fitting(log, prev, entries) && prev + Matched(log, entries) <= log.LastIndex()
    ensures Spliced(log, prev, entries).Valid()
  {}

  /** Redelivering a request changes nothing. */
  lemma MergeIsIdempotent(log: Log, prev: nat, entries: seq<LogEntry>)
    requires Fitting(log, prev, entries)
    ensures Merge(Merge(log, entries), entries) == Merge(log, entries)
  {
    MergeIsSplice(log, prev, entries);
    var merged := Merge(log, entries);
    forall i | 0 <= i < |entries|
      ensures Matches(merged, entries[i])
    {
      MergeDelivers(log, prev, entries, i);
    }
    if entries != [] {
      MergeDelivers(log, prev, entries, 0);
    }
    MergeIsSplice(merged, prev, entries);
  }
}
