/** When a snapshot marker, and the segments deleted with it, leave a log that can be rebuilt: the exact condition on
    the surviving records, and the runs that meet it. */
module Markers {
  import opened Bytes
  import opened Log
  import opened EntryCodec
  import opened Recovery
  import opened Survival
  import S = SegmentedLog

  function Records(entries: seq<Entry>): (r: seq<Record>)
    ensures |r| == |entries| && forall i :: 0 <= i < |r| ==> r[i] == Recovery.Decode(entries[i].data)
  {
    seq(|entries|, i requires 0 <= i < |entries| => Recovery.Decode(entries[i].data))
  }

  lemma {:induction false} ReplayIsRedo(entries: seq<Entry>)
    ensures Replay(entries) == Redo(EMPTY, Records(entries))
  {
    if entries != [] {
      var n := |entries| - 1;
      ReplayIsRedo(entries[..n]);
      assert Records(entries)[..n] == Records(entries[..n]);
    }
  }

  /** The active segment holds the whole log, or nothing but appends and truncations that led to it from some log. */
  ghost predicate Explained(s: Store) {
    S.Flat(s.wal.sealed) == [] || exists start: Log :: Traces(start, Records(s.wal.active.entries), s.log)
  }

  /** The records a marker leaves are all there were, or they reach back to the first retained entry and cut off every
      stale one above the marker. */
  ghost predicate Sufficient(s: Store, index: nat, max: nat) {
    var left := Records(s.Survivors(max));
    s.Survivors(max) == s.wal.Contents() || (Reaches(left, s.log, index) && NoStale(left, index))
  }

  lemma NothingTraces(log: Log)
    requires log.Valid()
    ensures Traces(log, [], log)
  {}

  /** The exact condition for compaction and for snapshot installation, in every log that is recoverable before. */
  lemma MarkerIsExact(s: Store, index: nat, term: nat, max: nat)
    requires s.Valid() && s.Recoverable() && Explained(s)
    requires index > s.log.snapshotIndex && index < U64 && term < U64 && HEADER_SIZE + 17 <= max
    ensures s.Compact(index, term, max).Recoverable() <==> Sufficient(s, index, max)
    ensures s.InstallSnapshot(index, term, max).Recoverable() <==> Sufficient(s, index, max)
  {
    MarkerReplaysSurvivors(s, index, term, max);
    if s.Survivors(max) != s.wal.Contents() {
      var start := SurvivorsAreTraced(s, max);
      ReplayIsRedo(s.Survivors(max));
      ReplayIsExactAbove(start, Records(s.Survivors(max)), s.log, index);
    }
  }

  lemma SurvivorsAreTraced(s: Store, max: nat) returns (start: Log)
    requires s.Valid() && Explained(s) && s.Survivors(max) != s.wal.Contents()
    ensures Traces(start, Records(s.Survivors(max)), s.log)
  {
    if S.SizeOf(s.wal.active.entries) + HEADER_SIZE + 17 > max {
      start := s.log;
      NothingTraces(s.log);
    } else {
      assert [] + s.wal.active.entries == s.wal.active.entries;
      start :| Traces(start, Records(s.wal.active.entries), s.log);
    }
  }

  // ---- Guards ----

  ghost predicate AppendsUpTo(entries: seq<Entry>, index: nat) {
    forall r :: r in Records(entries) && r.AppendRecord? ==> r.entry.index <= index
  }

  /** It is enough that the marker lies at or past the end of the log and of every surviving append. */
  lemma CoveredMarker(s: Store, index: nat, max: nat)
    requires s.log.LastIndex() <= index && AppendsUpTo(s.Survivors(max), index)
    ensures Sufficient(s, index, max)
  {
    var left := Records(s.Survivors(max));
    assert forall k :: 0 <= k < |left| ==> left[k] in left;
  }

  /** These are the append records of these entries. */
  ghost predicate Spells(records: seq<Record>, entries: seq<LogEntry>) {
    |records| == |entries| && forall k :: 0 <= k < |records| ==> records[k] == AppendRecord(entries[k])
  }

  /** When the segment holds just the append records of the log's entries from index `first` on, a marker is good if
      and only if it deletes nothing or `first` is no later than the first entry the log retains. */
  lemma UntruncatedMarker(s: Store, index: nat, first: nat, max: nat)
    requires s.Valid() && s.log.snapshotIndex < index
    requires s.log.snapshotIndex < first <= s.log.LastIndex() + 1
    requires Spells(Records(s.Survivors(max)), s.log.entries[first - s.log.snapshotIndex - 1..])
    ensures Sufficient(s, index, max)
            <==> s.Survivors(max) == s.wal.Contents() || first <= index + 1 || s.log.LastIndex() <= index
  {
    var left := Records(s.Survivors(max));
    if first <= index + 1 && index < s.log.LastIndex() {
      assert Alive(left, index + 1 - first);
    }
  }

  /** The number of append records among the first `n`. */
  function Appends(records: seq<Record>, n: nat): nat
    requires n <= |records|
  {
    if n == 0 then 0 else Appends(records, n - 1) + if records[n - 1].AppendRecord? then 1 else 0
  }

  lemma {:induction false} LenIsBounded(records: seq<Record>, n: nat)
    requires n <= |records|
    ensures Len(records[..n]) <= Appends(records, n)
  {
    if n > 0 {
      LenIsBounded(records, n - 1);
      assert records[..n][..n - 1] == records[..n - 1];
    }
  }

  lemma {:induction false} AppendsGrow(records: seq<Record>, k: nat, j: nat)
    requires k < j <= |records| && records[k].AppendRecord?
    ensures Appends(records, k) + 1 <= Appends(records, j)
  {
    if k + 1 < j {
      AppendsGrow(records, k, j - 1);
    }
  }

  /** When every truncation in the segment is above the number of appends before it, the replay cuts nothing off: a
      marker at or past the end of the log is then good if and only if it deletes nothing or no surviving append lies
      above it. */
  lemma StaleMarker(s: Store, index: nat, max: nat)
    requires s.Valid() && Explained(s) && s.log.LastIndex() <= index
    requires var left := Records(s.Survivors(max));
             forall j :: 0 <= j < |left| && left[j].TruncateRecord? ==> left[j].from > Appends(left, j)
    ensures Sufficient(s, index, max)
            <==> s.Survivors(max) == s.wal.Contents() || AppendsUpTo(s.Survivors(max), index)
  {
    if s.Survivors(max) != s.wal.Contents() {
      var start := SurvivorsAreTraced(s, max);
      UncutAppends(start, Records(s.Survivors(max)), s.log, index);
      if AppendsUpTo(s.Survivors(max), index) {
        CoveredMarker(s, index, max);
      }
    }
  }

  lemma UncutAppends(start: Log, records: seq<Record>, log: Log, index: nat)
    requires Traces(start, records, log) && log.LastIndex() <= index
    requires forall j :: 0 <= j < |records| && records[j].TruncateRecord? ==> records[j].from > Appends(records, j)
    ensures NoStale(records, index) ==> forall r :: r in records && r.AppendRecord? ==> r.entry.index <= index
  {
    if NoStale(records, index) {
      forall r | r in records && r.AppendRecord?
        ensures r.entry.index <= index
      {
        var k :| 0 <= k < |records| && records[k] == r;
        NeverCutOff(records, k);
        if Alive(records, k) {
          AliveIsHeld(start, records, log, k);
        }
      }
    }
  }

  lemma NeverCutOff(records: seq<Record>, k: nat)
    requires k < |records| && records[k].AppendRecord?
    requires forall j :: 0 <= j < |records| && records[j].TruncateRecord? ==> records[j].from > Appends(records, j)
    ensures !CutOff(records, k)
  {
    forall j | k < j < |records| && records[j].TruncateRecord?
      ensures records[j].from > Len(records[..k]) + 1
    {
      AppendsGrow(records, k, j);
      LenIsBounded(records, k);
    }
  }

  /** What is alive is in the log. */
  lemma AliveIsHeld(start: Log, records: seq<Record>, log: Log, k: nat)
    requires Traces(start, records, log) && Alive(records, k)
    ensures records[k].entry.index <= log.LastIndex()
  {
    Annotated(start, records);
    TruncatesArePositive(start, records);
    AliveIsPlaced(start, records, k);
    MarkOfRecord(records, k);
    var marks := Marks(records);
    LiveIsInside(marks, Len(records[..k]));
    var i :| 0 <= i < |LiveOf(marks)| && LiveOf(marks)[i] == records[k].entry;
    assert log.entries[Base(start, records) + i] == records[k].entry;
  }

  lemma {:induction false} LiveIsInside(marks: seq<Mark>, p: nat)
    requires p < |marks| && marks[p].live
    ensures marks[p].entry in LiveOf(marks)
  {
    if p < |marks| - 1 {
      LiveIsInside(marks[..|marks| - 1], p);
    }
  }

  // ---- Whole runs ----

  /** The operation is no effective snapshot marker, or a good one. */
  ghost predicate Good(s: Store, op: Op, max: nat) {
    match op
    case DoCompact(index, _) => index <= s.log.snapshotIndex || HEADER_SIZE + 17 > max || Sufficient(s, index, max)
    case DoInstall(index, _) => index <= s.log.snapshotIndex || HEADER_SIZE + 17 > max || Sufficient(s, index, max)
    case _ => true
  }

  lemma RedoSnoc(start: Log, records: seq<Record>, r: Record)
    ensures Redo(start, records + [r]) == ReplayOne(Redo(start, records), r)
    ensures AllApt(start, records + [r]) <==> AllApt(start, records) && Apt(Redo(start, records), r)
  {
    assert (records + [r])[..|records|] == records;
  }

  /** A logged record keeps the active segment explained; a refused one leaves it empty. */
  lemma LoggedIsExplained(s: Store, payload: Bytes, max: nat, log': Log)
    requires s.Valid() && Explained(s)
    requires Apt(s.log, Recovery.Decode(payload)) && ReplayOne(s.log, Recovery.Decode(payload)) == log'
    ensures Explained(s.Logged(payload, max, log'))
  {
    var r, e, t := Recovery.Decode(payload), Entry(s.wal.next, payload), s.Logged(payload, max, log');
    NothingTraces(s.log);
    if S.SizeOf(s.wal.active.entries) + HEADER_SIZE + |payload| > max {
      RedoSnoc(s.log, [], r);
      assert Records([] + [e]) == [] + [r];
      assert Traces(s.log, Records(t.wal.active.entries), t.log);
    } else if S.Flat(s.wal.sealed) != [] {
      var start: Log :| Traces(start, Records(s.wal.active.entries), s.log);
      RedoSnoc(start, Records(s.wal.active.entries), r);
      assert Records(s.wal.active.entries + [e]) == Records(s.wal.active.entries) + [r];
      assert Traces(start, Records(t.wal.active.entries), t.log);
    }
  }

  lemma MarkedIsExplained(s: Store, index: nat, term: nat, max: nat, log': Log)
    requires s.Valid() && Explained(s)
    ensures Explained(s.Marked(index, term, max, log'))
  {
    var t := s.Marked(index, term, max, log');
    if HEADER_SIZE + 17 <= max {
      MarkerDeletesSealed(s, index, term, max, log');
    } else {
      NothingTraces(s.log);
      assert Traces(s.log, Records(t.wal.active.entries), t.log);
    }
  }

  lemma MarkerDeletesSealed(s: Store, index: nat, term: nat, max: nat, log': Log)
    requires s.Valid() && HEADER_SIZE + 17 <= max
    ensures S.Flat(s.Marked(index, term, max, log').wal.sealed) == []
  {
    var r, t := s.wal.Rotated(HEADER_SIZE + 17, max), s.Marked(index, term, max, log').wal;
    MarkerLeaves(s, index, term, max, log');
    assert t.active.entries == r.active.entries + [Entry(s.wal.next, EncodeSnapshot(index, term))];
    assert |t.Contents()| == |t.active.entries|;
  }

  lemma StepIsExplained(s: Store, op: Op, max: nat)
    requires s.Valid() && s.Recoverable() && Explained(s) && Storable(s, op)
    ensures Explained(Apply(s, op, max))
  {
    match op {
      case DoAppend(term, data) =>
        var e := LogEntry(term, s.log.LastIndex() + 1, data);
        AppendDecodes(e);
        ReplayRedoes(s.log, term, data, 0);
        LoggedIsExplained(s, EncodeAppend(e), max, s.log.Append(term, data));
      case DoTruncate(from) =>
        if s.log.Truncates(from) {
          TruncateDecodes(from);
          ReplayRedoes(s.log, 0, [], from);
          LoggedIsExplained(s, EncodeTruncate(from), max, s.log.TruncateFrom(from));
        }
      case DoCompact(index, term) =>
        MarkedIsExplained(s, index, term, max, s.log.Compact(index, term));
      case DoInstall(index, term) =>
        MarkedIsExplained(s, index, term, max, s.log.InstallSnapshot(index, term));
      case DoReopen =>
        S.ReopenRestoresNext(s.wal);
    }
  }

  lemma RefusedMarker(s: Store, index: nat, term: nat, max: nat, log': Log)
    requires s.Recoverable() && HEADER_SIZE + 17 > max
    ensures s.Marked(index, term, max, log').Recoverable()
  {
    S.AppendOutcome(s.wal, EncodeSnapshot(index, term), max);
  }

  /** An operation on a recoverable log leaves it recoverable exactly if it is good. */
  lemma StepIsExact(s: Store, op: Op, max: nat)
    requires s.Valid() && s.Recoverable() && Explained(s) && Storable(s, op)
    ensures Apply(s, op, max).Recoverable() <==> Good(s, op, max)
  {
    match op {
      case DoAppend(term, data) => AppendKeepsRecoverable(s, term, data, max);
      case DoTruncate(from) => TruncateKeepsRecoverable(s, from, max);
      case DoCompact(index, term) =>
        if HEADER_SIZE + 17 > max {
          RefusedMarker(s, index, term, max, s.log.Compact(index, term));
        } else if index > s.log.snapshotIndex {
          MarkerIsExact(s, index, term, max);
        }
      case DoInstall(index, term) =>
        if HEADER_SIZE + 17 > max {
          RefusedMarker(s, index, term, max, s.log.InstallSnapshot(index, term));
        } else if index > s.log.snapshotIndex {
          MarkerIsExact(s, index, term, max);
        }
      case DoReopen =>
        S.ReopenRestoresNext(s.wal);
    }
  }

  ghost predicate StorableRun(ops: seq<Op>, max: nat) {
    forall k :: 0 <= k < |ops| ==> Storable(Run(ops[..k], max), ops[k])
  }

  ghost predicate GoodRun(ops: seq<Op>, max: nat) {
    forall k :: 0 <= k < |ops| ==> Good(Run(ops[..k], max), ops[k], max)
  }

  /** Opening the log at any point of the run would find what memory holds there. */
  ghost predicate AlwaysRecoverable(ops: seq<Op>, max: nat) {
    forall k :: 0 <= k <= |ops| ==> Run(ops[..k], max).Reopen().log == Run(ops[..k], max).log
  }

  lemma PrefixOfRun(ops: seq<Op>, n: nat, k: nat)
    requires n <= |ops| && k <= n
    ensures ops[..n][..k] == ops[..k]
  {}

  lemma StorablePrefix(ops: seq<Op>, n: nat, max: nat)
    requires StorableRun(ops, max) && n <= |ops|
    ensures StorableRun(ops[..n], max)
  {
    forall k | 0 <= k < n
      ensures Storable(Run(ops[..n][..k], max), ops[..n][k])
    {
      PrefixOfRun(ops, n, k);
    }
  }

  lemma GoodPrefix(ops: seq<Op>, n: nat, max: nat)
    requires GoodRun(ops, max) && n <= |ops|
    ensures GoodRun(ops[..n], max)
  {
    forall k | 0 <= k < n
      ensures Good(Run(ops[..n][..k], max), ops[..n][k], max)
    {
      PrefixOfRun(ops, n, k);
    }
  }

  lemma RecoverablePrefix(ops: seq<Op>, n: nat, max: nat)
    requires AlwaysRecoverable(ops, max) && n <= |ops|
    ensures AlwaysRecoverable(ops[..n], max) && Run(ops, max).Reopen().log == Run(ops, max).log
  {
    forall k | 0 <= k <= n
      ensures Run(ops[..n][..k], max).Reopen().log == Run(ops[..n][..k], max).log
    {
      PrefixOfRun(ops, n, k);
    }
    assert ops[..|ops|] == ops;
  }

  lemma GoodSnoc(ops: seq<Op>, max: nat)
    requires ops != [] && GoodRun(ops[..|ops| - 1], max) && Good(Run(ops[..|ops| - 1], max), ops[|ops| - 1], max)
    ensures GoodRun(ops, max)
  {
    forall k | 0 <= k < |ops|
      ensures Good(Run(ops[..k], max), ops[k], max)
    {
      if k < |ops| - 1 {
        PrefixOfRun(ops, |ops| - 1, k);
      }
    }
  }

  lemma {:induction false} RunIsSound(ops: seq<Op>, max: nat)
    requires StorableRun(ops, max) && (GoodRun(ops, max) || AlwaysRecoverable(ops, max))
    ensures Run(ops, max).Valid() && Run(ops, max).Recoverable() && Explained(Run(ops, max))
    ensures GoodRun(ops, max)
  {
    if ops == [] {
      assert S.FRESH.Contents() == [];
    } else {
      var prefix, op := ops[..|ops| - 1], ops[|ops| - 1];
      StorablePrefix(ops, |ops| - 1, max);
      if GoodRun(ops, max) {
        GoodPrefix(ops, |ops| - 1, max);
      } else {
        RecoverablePrefix(ops, |ops| - 1, max);
      }
      RunIsSound(prefix, max);
      StepIsExact(Run(prefix, max), op, max);
      StepIsValid(Run(prefix, max), op, max);
      StepIsExplained(Run(prefix, max), op, max);
      GoodSnoc(ops, max);
    }
  }

  /** Recovery is exact at every point of a run of appends, truncations, compactions, installed snapshots and
      reopenings, refused operations included, if and only if every effective marker of the run was good. */
  lemma RecoveryIsExact(ops: seq<Op>, max: nat)
    requires StorableRun(ops, max)
    ensures AlwaysRecoverable(ops, max) <==> GoodRun(ops, max)
  {
    if AlwaysRecoverable(ops, max) {
      RunIsSound(ops, max);
    }
    if GoodRun(ops, max) {
      forall k | 0 <= k <= |ops|
        ensures Run(ops[..k], max).Reopen().log == Run(ops[..k], max).log
      {
        StorablePrefix(ops, k, max);
        GoodPrefix(ops, k, max);
        RunIsSound(ops[..k], max);
      }
    }
  }
}
