/** Two runs in which a snapshot marker is not good: one loses an entry, the other brings a truncated one back. */
module LostEntries {
  import opened Bytes
  import opened Log
  import opened EntryCodec
  import opened Recovery
  import opened Survival
  import opened Markers
  import S = SegmentedLog

  lemma AppendActive(w: S.WalState, payload: Bytes, max: nat)
    requires HEADER_SIZE + |payload| <= max
    ensures var (need, r, t) := (HEADER_SIZE + |payload|, Entry(w.next, payload), w.Append(payload, max));
            && t.next == w.next + 1
            && if S.SizeOf(w.active.entries) + need <= max
               then t.active.entries == w.active.entries + [r]
                    && S.SizeOf(t.active.entries) == S.SizeOf(w.active.entries) + need
               else t.active.entries == [r] && S.SizeOf(t.active.entries) == need
  {
    S.SizeSnoc(w.active.entries, Entry(w.next, payload));
    S.SizeSnoc([], Entry(w.next, payload));
    assert [] + [Entry(w.next, payload)] == [Entry(w.next, payload)];
  }

  const CAP: nat := 184

  predicate Has(s: Store, next: nat, log: Log, active: seq<Entry>, size: nat) {
    s.wal.next == next && s.log == log && s.wal.active.entries == active && S.SizeOf(active) == size
  }

  /** The run was safe and left this log and these records in the active segment. */
  ghost predicate Leaves(ops: seq<Op>, log: Log, active: seq<Entry>, size: nat) {
    StorableRun(ops, CAP) && GoodRun(ops, CAP) && Has(Run(ops, CAP), |ops| + 1, log, active, size)
  }

  lemma GoodRunSnoc(ops: seq<Op>, op: Op, max: nat)
    requires StorableRun(ops, max) && GoodRun(ops, max) && Storable(Run(ops, max), op) && Good(Run(ops, max), op, max)
    ensures StorableRun(ops + [op], max) && GoodRun(ops + [op], max)
  {
    var all := ops + [op];
    forall k | 0 <= k < |all|
      ensures Storable(Run(all[..k], max), all[k]) && Good(Run(all[..k], max), all[k], max)
    {
      assert all[..k] == ops[..k];
      assert k == |ops| ==> ops[..k] == ops;
    }
  }

  lemma AppendHas(s: Store, next: nat, term: nat, d: Bytes, log: Log, active: seq<Entry>, size: nat)
    requires Has(s, next, log, active, size) && |d| == 30
    ensures var r := Entry(next, EncodeAppend(LogEntry(term, log.LastIndex() + 1, d)));
            if size + 63 <= CAP
            then Has(s.Append(term, d, CAP), next + 1, log.Append(term, d), active + [r], size + 63)
            else Has(s.Append(term, d, CAP), next + 1, log.Append(term, d), [r], 63)
  {
    AppendActive(s.wal, EncodeAppend(LogEntry(term, log.LastIndex() + 1, d)), CAP);
  }

  /** One more append of 30 bytes, to segments of 184 bytes. */
  lemma AppendLeaves(ops: seq<Op>, term: nat, d: Bytes, log: Log, active: seq<Entry>, size: nat)
    requires Leaves(ops, log, active, size) && |d| == 30 && |ops| < 100 && log.LastIndex() < 100 && term < 100
    ensures var r := Entry(|ops| + 1, EncodeAppend(LogEntry(term, log.LastIndex() + 1, d)));
            if size + 63 <= CAP
            then Leaves(ops + [DoAppend(term, d)], log.Append(term, d), active + [r], size + 63)
            else Leaves(ops + [DoAppend(term, d)], log.Append(term, d), [r], 63)
  {
    RunSnoc(ops, DoAppend(term, d), CAP);
    GoodRunSnoc(ops, DoAppend(term, d), CAP);
    AppendHas(Run(ops, CAP), |ops| + 1, term, d, log, active, size);
  }

  lemma TruncateLeaves(ops: seq<Op>, from: nat, log: Log, active: seq<Entry>, size: nat)
    requires Leaves(ops, log, active, size) && |ops| < 100 && log.Truncates(from) && from < 100 && size + 25 <= CAP
    ensures Leaves(ops + [DoTruncate(from)], log.TruncateFrom(from),
                   active + [Entry(|ops| + 1, EncodeTruncate(from))], size + 25)
  {
    RunSnoc(ops, DoTruncate(from), CAP);
    GoodRunSnoc(ops, DoTruncate(from), CAP);
    AppendActive(Run(ops, CAP).wal, EncodeTruncate(from), CAP);
  }

  lemma CompactLeaves(ops: seq<Op>, index: nat, log: Log, active: seq<Entry>, size: nat)
    requires Leaves(ops, log, active, size) && log.Valid() && size + 33 <= CAP && log.snapshotIndex < index < 100
    ensures Run(ops + [DoCompact(index, 1)], CAP).log == log.Compact(index, 1)
    ensures Run(ops + [DoCompact(index, 1)], CAP).Reopen().log == ReplayOne(Replay(active), SnapshotRecord(index, 1))
  {
    RunIsSound(ops, CAP);
    RunSnoc(ops, DoCompact(index, 1), CAP);
    CompactedAndReopened(Run(ops, CAP), index);
  }

  lemma CompactedAndReopened(s: Store, index: nat)
    requires s.Valid() && s.log.snapshotIndex < index < 100 && S.SizeOf(s.wal.active.entries) + 33 <= CAP
    ensures s.Compact(index, 1, CAP).log == s.log.Compact(index, 1)
    ensures s.Compact(index, 1, CAP).Reopen().log == ReplayOne(Replay(s.wal.active.entries), SnapshotRecord(index, 1))
  {
    MarkerLeaves(s, index, 1, CAP, s.log.Compact(index, 1));
    SnapshotDecodes(index, 1);
    ReplaySnoc(s.wal.active.entries, Entry(s.wal.next, EncodeSnapshot(index, 1)));
  }

  lemma OneAppend(d: Bytes) returns (ops: seq<Op>)
    requires |d| == 30
    ensures |ops| == 1
    ensures Leaves(ops, EMPTY.Append(1, d), [Entry(1, EncodeAppend(LogEntry(1, 1, d)))], 63)
  {
    assert Leaves([], EMPTY, [], 0);
    AppendLeaves([], 1, d, EMPTY, [], 0);
    ops := [] + [DoAppend(1, d)];
    var first := Entry(1, EncodeAppend(LogEntry(1, 1, d)));
    assert [] + [first] == [first];
  }

  lemma TwoAppends(d: Bytes) returns (ops: seq<Op>)
    requires |d| == 30
    ensures |ops| == 2
    ensures Leaves(ops, EMPTY.Append(1, d).Append(1, d),
                   [Entry(1, EncodeAppend(LogEntry(1, 1, d)))] + [Entry(2, EncodeAppend(LogEntry(1, 2, d)))], 126)
  {
    ops := OneAppend(d);
    AppendLeaves(ops, 1, d, EMPTY.Append(1, d), [Entry(1, EncodeAppend(LogEntry(1, 1, d)))], 63);
    ops := ops + [DoAppend(1, d)];
  }

  /** Three such appends: two fill the first segment, the third is alone in the second. */
  lemma ThreeAppends(d: Bytes) returns (ops: seq<Op>)
    requires |d| == 30
    ensures |ops| == 3
    ensures Leaves(ops, Log(0, 0, [LogEntry(1, 1, d), LogEntry(1, 2, d), LogEntry(1, 3, d)]),
                   [Entry(3, EncodeAppend(LogEntry(1, 3, d)))], 63)
  {
    var before := EMPTY.Append(1, d).Append(1, d);
    ops := TwoAppends(d);
    AppendLeaves(ops, 1, d, before,
                 [Entry(1, EncodeAppend(LogEntry(1, 1, d)))] + [Entry(2, EncodeAppend(LogEntry(1, 2, d)))], 126);
    ops := ops + [DoAppend(1, d)];
    ThreeEntries(d);
  }

  lemma ThreeEntries(d: Bytes)
    ensures EMPTY.Append(1, d).Append(1, d).Append(1, d)
            == Log(0, 0, [LogEntry(1, 1, d), LogEntry(1, 2, d), LogEntry(1, 3, d)])
  {}

  /** A compaction that keeps a tail can lose entries: here entry 2, retained in memory, is gone after reopening. */
  lemma TailIsLost(d: Bytes) returns (ops: seq<Op>)
    requires |d| == 30
    ensures Run(ops, CAP).log == Log(1, 1, [LogEntry(1, 2, d), LogEntry(1, 3, d)])
    ensures Run(ops, CAP).Reopen().log == Log(1, 1, [LogEntry(1, 3, d)])
  {
    ops := ThreeAppends(d);
    var e := LogEntry(1, 3, d);
    var log, active := Log(0, 0, [LogEntry(1, 1, d), LogEntry(1, 2, d), e]), [Entry(3, EncodeAppend(e))];
    CompactLeaves(ops, 1, log, active, 63);
    ReplayedFirst(e);
    AfterOne(e);
    ops := ops + [DoCompact(1, 1)];
  }

  lemma AfterOne(e: LogEntry)
    requires e.index == 3
    ensures After([e], 1) == [e]
  {
    assert After([e], 1) == [e] + After([e][1..], 1);
  }

  lemma Truncated(d: Bytes) returns (ops: seq<Op>)
    requires |d| == 30
    ensures Leaves(ops, Log(0, 0, [LogEntry(1, 1, d)]),
                   [Entry(3, EncodeAppend(LogEntry(1, 3, d)))] + [Entry(4, EncodeTruncate(2))], 88)
    ensures |ops| == 4
  {
    var log := Log(0, 0, [LogEntry(1, 1, d), LogEntry(1, 2, d), LogEntry(1, 3, d)]);
    ops := ThreeAppends(d);
    TruncateLeaves(ops, 2, log, [Entry(3, EncodeAppend(LogEntry(1, 3, d)))], 63);
    ops := ops + [DoTruncate(2)];
    assert log.TruncateFrom(2) == Log(0, 0, [LogEntry(1, 1, d)]);
  }

  /** After those, a truncation to 1 and a new entry 2, all in the second segment. */
  lemma Overwritten(d: Bytes) returns (ops: seq<Op>)
    requires |d| == 30
    ensures Leaves(ops, Log(0, 0, [LogEntry(1, 1, d), LogEntry(1, 2, d)]),
                   Stale(LogEntry(1, 3, d), LogEntry(1, 2, d)), 151)
    ensures |ops| == 5
  {
    var log := Log(0, 0, [LogEntry(1, 1, d)]);
    ops := Truncated(d);
    AppendLeaves(ops, 1, d, log, [Entry(3, EncodeAppend(LogEntry(1, 3, d)))] + [Entry(4, EncodeTruncate(2))], 88);
    ops := ops + [DoAppend(1, d)];
    TwoEntries(d);
  }

  lemma TwoEntries(d: Bytes)
    ensures Log(0, 0, [LogEntry(1, 1, d)]).Append(1, d) == Log(0, 0, [LogEntry(1, 1, d), LogEntry(1, 2, d)])
  {}

  function Stale(e: LogEntry, f: LogEntry): seq<Entry> {
    [Entry(3, EncodeAppend(e))] + [Entry(4, EncodeTruncate(2))] + [Entry(5, EncodeAppend(f))]
  }

  /** And truncated entries can come back: here entry 3, overwritten by a truncation to 1 and a new entry 2, reappears
      when the log is compacted at its end. The condition of `StaleMarker` is what fails. */
  lemma TruncatedReturns(d: Bytes) returns (ops: seq<Op>)
    requires |d| == 30
    ensures Run(ops, CAP).log == Log(2, 1, [])
    ensures Run(ops, CAP).Reopen().log == Log(2, 1, [LogEntry(1, 3, d)])
  {
    ops := Overwritten(d);
    var e, f := LogEntry(1, 3, d), LogEntry(1, 2, d);
    CompactLeaves(ops, 2, Log(0, 0, [LogEntry(1, 1, d), f]), Stale(e, f), 151);
    ReplayedStale(e, f);
    ops := ops + [DoCompact(2, 1)];
  }

  lemma ReplayedStale(e: LogEntry, f: LogEntry)
    requires e.index == 3 && f.index == 2 && e.term == f.term == 1
    ensures ReplayOne(Replay(Stale(e, f)), SnapshotRecord(2, 1)) == Log(2, 1, [e])
  {
    var a, b, c := Entry(3, EncodeAppend(e)), Entry(4, EncodeTruncate(2)), Entry(5, EncodeAppend(f));
    ReplayedFirst(e);
    ReplayedPair(e);
    AppendDecodes(f);
    ReplaySnoc([a] + [b], c);
    assert [e] + [f] == [e, f];
    AfterFirst(e, f);
  }

  lemma ReplayedFirst(e: LogEntry)
    requires e.index == 3 && e.term == 1
    ensures Replay([Entry(3, EncodeAppend(e))]) == Log(0, 0, [e])
  {
    var a := Entry(3, EncodeAppend(e));
    AppendDecodes(e);
    ReplaySnoc([], a);
    assert [] + [a] == [a];
  }

  lemma ReplayedPair(e: LogEntry)
    requires Replay([Entry(3, EncodeAppend(e))]) == Log(0, 0, [e])
    ensures Replay([Entry(3, EncodeAppend(e))] + [Entry(4, EncodeTruncate(2))]) == Log(0, 0, [e])
  {
    TruncateDecodes(2);
    ReplaySnoc([Entry(3, EncodeAppend(e))], Entry(4, EncodeTruncate(2)));
  }

  lemma AfterFirst(e: LogEntry, f: LogEntry)
    requires e.index == 3 && f.index == 2
    ensures After([e, f], 2) == [e]
  {
    assert [e, f][1..] == [f];
    assert After([f], 2) == After([f][1..], 2) == [];
  }
}
