/** What a replay that starts in the middle of a log's history makes of it. The records of a segment are the appends and
    truncations of a log that already had entries; a replay that begins with them places and cuts by position, and so
    may keep an entry that the log had truncated. */
module Survival {
  import opened Bytes
  import opened Log
  import opened Recovery

  // ---- The history behind the records ----

  /** The record an append or an effective truncation of this log writes. */
  predicate Apt(log: Log, r: Record) {
    match r
    case AppendRecord(e) => e.index == log.LastIndex() + 1
    case TruncateRecord(from) => log.Truncates(from)
    case _ => false
  }

  /** The log after these records. */
  function Redo(start: Log, records: seq<Record>): Log {
    if records == [] then start
    else ReplayOne(Redo(start, records[..|records| - 1]), records[|records| - 1])
  }

  ghost predicate AllApt(start: Log, records: seq<Record>) {
    records != [] ==>
      && AllApt(start, records[..|records| - 1])
      && Apt(Redo(start, records[..|records| - 1]), records[|records| - 1])
  }

  /** A log at `start` became `log` by the operations that wrote these records. */
  ghost predicate Traces(start: Log, records: seq<Record>, log: Log) {
    start.Valid() && AllApt(start, records) && Redo(start, records) == log
  }

  // ---- Positions in the replay ----

  /** How many entries a replay of just these records holds. */
  function Len(records: seq<Record>): nat {
    if records == [] then 0
    else
      var before := Len(records[..|records| - 1]);
      match records[|records| - 1]
      case AppendRecord(_) => before + 1
      case TruncateRecord(from) => if 1 <= from <= before then from - 1 else before
      case _ => before
  }

  /** The k-th record appended an entry that no later truncation removed from the log. */
  predicate Alive(records: seq<Record>, k: nat) {
    && k < |records| && records[k].AppendRecord?
    && forall j :: k < j < |records| && records[j].TruncateRecord? ==> records[j].from > records[k].entry.index
  }

  /** A later truncation reaches down to the place the k-th record has in the replay. */
  predicate CutOff(records: seq<Record>, k: nat) {
    && k < |records|
    && exists j :: k < j < |records| && records[j].TruncateRecord? && records[j].from <= Len(records[..k]) + 1
  }

  /** An entry of the replay, and whether the log still has it. */
  datatype Mark = Mark(entry: LogEntry, live: bool)

  function Cut(marks: seq<Mark>, from: nat): (r: seq<Mark>)
    requires from >= 1
    ensures |r| == if from <= |marks| then from - 1 else |marks|
    ensures forall p :: 0 <= p < |r| ==> r[p] == Mark(marks[p].entry, marks[p].live && marks[p].entry.index < from)
  {
    seq(if from <= |marks| then from - 1 else |marks|,
        p requires 0 <= p < |marks| => Mark(marks[p].entry, marks[p].live && marks[p].entry.index < from))
  }

  /** The replay of these records, annotated. */
  function Marks(records: seq<Record>): seq<Mark> {
    if records == [] then []
    else
      var before := Marks(records[..|records| - 1]);
      match records[|records| - 1]
      case AppendRecord(e) => before + [Mark(e, true)]
      case TruncateRecord(from) => if from >= 1 then Cut(before, from) else before
      case _ => before
  }

  function EntriesOf(marks: seq<Mark>): (r: seq<LogEntry>)
    ensures |r| == |marks| && forall p :: 0 <= p < |r| ==> r[p] == marks[p].entry
  {
    seq(|marks|, p requires 0 <= p < |marks| => marks[p].entry)
  }

  /** The entries the log still has. */
  function LiveOf(marks: seq<Mark>): seq<LogEntry> {
    if marks == [] then []
    else LiveOf(marks[..|marks| - 1]) + if marks[|marks| - 1].live then [marks[|marks| - 1].entry] else []
  }

  /** How many of the entries at the start are still there. */
  function Base(start: Log, records: seq<Record>): nat {
    if records == [] then |start.entries|
    else
      var before := Base(start, records[..|records| - 1]);
      match records[|records| - 1]
      case TruncateRecord(from) =>
        if start.snapshotIndex < from <= start.snapshotIndex + before then from - start.snapshotIndex - 1 else before
      case _ => before
  }

  lemma {:induction false} LenIsLength(records: seq<Record>)
    ensures |Marks(records)| == Len(records)
  {
    if records != [] {
      LenIsLength(records[..|records| - 1]);
    }
  }

  /** Every entry of the replay lies at a place below its index, and past what the log kept from the start. */
  ghost predicate Placed(marks: seq<Mark>, floor: nat) {
    forall p :: 0 <= p < |marks| ==> marks[p].entry.index > p && marks[p].entry.index > floor
  }

  lemma LiveSnoc(marks: seq<Mark>, m: Mark)
    ensures LiveOf(marks + [m]) == LiveOf(marks) + if m.live then [m.entry] else []
  {
    assert (marks + [m])[..|marks|] == marks;
  }

  lemma CutSnoc(marks: seq<Mark>, m: Mark, from: nat)
    requires from >= 1
    ensures Cut(marks + [m], from)
            == Cut(marks, from)
               + if from > |marks| + 1 then [Mark(m.entry, m.live && m.entry.index < from)] else []
  {}

  /** Cutting a replay keeps exactly the live entries below the cut. */
  lemma {:induction false} LiveBelow(marks: seq<Mark>, from: nat, floor: nat)
    requires from >= 1 && Placed(marks, floor)
    ensures LiveOf(Cut(marks, from)) == UpTo(LiveOf(marks), from - 1)
  {
    if marks != [] {
      var before, last := marks[..|marks| - 1], marks[|marks| - 1];
      assert marks == before + [last];
      LiveBelow(before, from, floor);
      LiveBelowSnoc(before, last, from);
    }
  }

  lemma LiveBelowSnoc(before: seq<Mark>, last: Mark, from: nat)
    requires from >= 1 && last.entry.index > |before|
    requires LiveOf(Cut(before, from)) == UpTo(LiveOf(before), from - 1)
    ensures LiveOf(Cut(before + [last], from)) == UpTo(LiveOf(before + [last]), from - 1)
  {
    var cut := Mark(last.entry, last.live && last.entry.index < from);
    LiveSnoc(before, last);
    CutSnoc(before, last, from);
    if last.live {
      UpToSnoc(LiveOf(before), last.entry, from - 1);
    } else {
      assert LiveOf(before) + [] == LiveOf(before);
    }
    if from > |before| + 1 {
      LiveSnoc(Cut(before, from), cut);
      assert LiveOf(Cut(before, from)) + [] == LiveOf(Cut(before, from));
    } else {
      assert Cut(before, from) + [] == Cut(before, from);
    }
    assert UpTo(LiveOf(before), from - 1) + [] == UpTo(LiveOf(before), from - 1);
  }

  lemma {:induction false} UpToSnoc(a: seq<LogEntry>, e: LogEntry, index: nat)
    ensures UpTo(a + [e], index) == UpTo(a, index) + if e.index <= index then [e] else []
  {
    if a == [] {
      assert [] + [e] == [e] && [e][1..] == [];
    } else {
      UpToSnoc(a[1..], e, index);
      assert (a + [e])[1..] == a[1..] + [e];
    }
  }

  /** What the annotated replay is: the replay itself, and with the live ones behind what is left of the start, the
      log. */
  ghost predicate Annotates(marks: seq<Mark>, start: Log, base: nat, log: Log, replayed: Log) {
    && log.Valid() && log.snapshotIndex == start.snapshotIndex && log.snapshotTerm == start.snapshotTerm
    && base <= |start.entries| && log.entries == start.entries[..base] + LiveOf(marks)
    && Placed(marks, start.snapshotIndex + base) && |marks| <= log.LastIndex()
    && replayed == Log(0, 0, EntriesOf(marks))
  }

  lemma AppendAnnotates(marks: seq<Mark>, start: Log, base: nat, log: Log, replayed: Log, e: LogEntry)
    requires Annotates(marks, start, base, log, replayed) && e.index == log.LastIndex() + 1
    ensures Annotates(marks + [Mark(e, true)], start, base,
                      ReplayOne(log, AppendRecord(e)), ReplayOne(replayed, AppendRecord(e)))
  {
    LiveSnoc(marks, Mark(e, true));
    assert EntriesOf(marks + [Mark(e, true)]) == EntriesOf(marks) + [e];
    assert start.entries[..base] + (LiveOf(marks) + [e]) == log.entries + [e];
  }

  lemma LiveNumbered(kept: seq<LogEntry>, live: seq<LogEntry>, snapshotIndex: nat)
    requires Numbered(kept + live, snapshotIndex)
    ensures Numbered(live, snapshotIndex + |kept|)
  {
    assert forall i :: 0 <= i < |live| ==> live[i] == (kept + live)[|kept| + i];
  }

  lemma SliceIsUpTo(kept: seq<LogEntry>, live: seq<LogEntry>, snapshotIndex: nat, from: nat)
    requires Numbered(kept + live, snapshotIndex)
    requires snapshotIndex < from <= snapshotIndex + |kept| + |live|
    ensures (kept + live)[..from - snapshotIndex - 1]
            == (if from <= snapshotIndex + |kept| then kept[..from - snapshotIndex - 1] else kept)
               + UpTo(live, from - 1)
  {
    LiveNumbered(kept, live, snapshotIndex);
    if from <= snapshotIndex + |kept| {
      AllAbove(live, from - 1, snapshotIndex + |kept|);
    } else {
      FiltersAreSlices(live, snapshotIndex + |kept|, from - 1);
    }
  }

  lemma TruncateLive(kept: seq<LogEntry>, marks: seq<Mark>, snapshotIndex: nat, from: nat)
    requires Numbered(kept + LiveOf(marks), snapshotIndex) && Placed(marks, snapshotIndex + |kept|)
    requires snapshotIndex < from <= snapshotIndex + |kept| + |LiveOf(marks)|
    ensures (kept + LiveOf(marks))[..from - snapshotIndex - 1]
            == (if from <= snapshotIndex + |kept| then kept[..from - snapshotIndex - 1] else kept)
               + LiveOf(Cut(marks, from))
  {
    SliceIsUpTo(kept, LiveOf(marks), snapshotIndex, from);
    LiveBelow(marks, from, snapshotIndex + |kept|);
  }

  lemma TruncatedLog(marks: seq<Mark>, start: Log, base: nat, log: Log, replayed: Log, from: nat)
    requires Annotates(marks, start, base, log, replayed) && log.Truncates(from)
    ensures ReplayOne(log, TruncateRecord(from)) == log.(entries := log.entries[..from - log.snapshotIndex - 1])
    ensures log.entries[..from - log.snapshotIndex - 1]
            == start.entries[..if from <= start.snapshotIndex + base then from - start.snapshotIndex - 1 else base]
               + LiveOf(Cut(marks, from))
  {
    var kept := start.entries[..base];
    TruncateLive(kept, marks, start.snapshotIndex, from);
    if from <= start.snapshotIndex + base {
      assert kept[..from - start.snapshotIndex - 1] == start.entries[..from - start.snapshotIndex - 1];
    } else {
      assert log.entries[..|log.entries|] == log.entries;
    }
  }

  lemma CutIsPlaced(marks: seq<Mark>, floor: nat, lower: nat, from: nat)
    requires Placed(marks, floor) && lower <= floor && from >= 1
    ensures Placed(Cut(marks, from), lower) && |Cut(marks, from)| < from
  {}

  lemma TruncateAnnotates(marks: seq<Mark>, start: Log, base: nat, log: Log, replayed: Log, from: nat)
    requires Annotates(marks, start, base, log, replayed) && log.Truncates(from)
    ensures var base' := if from <= start.snapshotIndex + base then from - start.snapshotIndex - 1 else base;
            Annotates(Cut(marks, from), start, base',
                      ReplayOne(log, TruncateRecord(from)), ReplayOne(replayed, TruncateRecord(from)))
  {
    var base' := if from <= start.snapshotIndex + base then from - start.snapshotIndex - 1 else base;
    TruncatedLog(marks, start, base, log, replayed, from);
    TruncatedReplay(marks, from);
    CutIsPlaced(marks, start.snapshotIndex + base, start.snapshotIndex + base', from);
    AssembleCut(Cut(marks, from), start, base', log, from);
  }

  lemma {:induction false} AssembleCut(marks: seq<Mark>, start: Log, base: nat, log: Log, from: nat)
    requires log.Valid() && log.snapshotIndex == start.snapshotIndex && log.snapshotTerm == start.snapshotTerm
    requires log.Truncates(from) && base <= |start.entries|
    requires log.entries[..from - log.snapshotIndex - 1] == start.entries[..base] + LiveOf(marks)
    requires Placed(marks, start.snapshotIndex + base) && |marks| < from
    ensures Annotates(marks, start, base, log.(entries := log.entries[..from - log.snapshotIndex - 1]),
                      Log(0, 0, EntriesOf(marks)))
  {}

  lemma TruncatedReplay(marks: seq<Mark>, from: nat)
    requires from >= 1
    ensures ReplayOne(Log(0, 0, EntriesOf(marks)), TruncateRecord(from)) == Log(0, 0, EntriesOf(Cut(marks, from)))
  {
    assert EntriesOf(Cut(marks, from)) == EntriesOf(marks)[..|Cut(marks, from)|];
    assert EntriesOf(marks)[..|marks|] == EntriesOf(marks);
  }

  lemma {:induction false} Annotated(start: Log, records: seq<Record>)
    requires start.Valid() && AllApt(start, records)
    ensures Annotates(Marks(records), start, Base(start, records), Redo(start, records), Redo(EMPTY, records))
  {
    if records == [] {
      assert start.entries[..|start.entries|] + [] == start.entries;
    } else {
      var prefix, r := records[..|records| - 1], records[|records| - 1];
      Annotated(start, prefix);
      var marks, base := Marks(prefix), Base(start, prefix);
      if r.AppendRecord? {
        AppendAnnotates(marks, start, base, Redo(start, prefix), Redo(EMPTY, prefix), r.entry);
      } else {
        TruncateAnnotates(marks, start, base, Redo(start, prefix), Redo(EMPTY, prefix), r.from);
      }
    }
  }

  // ---- Entries past an index ----

  lemma {:induction false} AfterConcat(a: seq<LogEntry>, b: seq<LogEntry>, index: nat)
    ensures After(a + b, index) == After(a, index) + After(b, index)
  {
    if a == [] {
      assert a + b == b;
    } else {
      var head, rest := if a[0].index > index then [a[0]] else [], After(a[1..], index);
      AfterConcat(a[1..], b, index);
      assert (a + b)[1..] == a[1..] + b;
      assert After(a, index) == head + rest;
      assert head + (rest + After(b, index)) == (head + rest) + After(b, index);
    }
  }

  lemma AfterSnoc(a: seq<LogEntry>, e: LogEntry, index: nat)
    ensures After(a + [e], index) == After(a, index) + if e.index > index then [e] else []
  {
    AfterConcat(a, [e], index);
    assert After([e], index) == (if e.index > index then [e] else []) + After([e][1..], index);
  }

  ghost predicate LiveAbove(marks: seq<Mark>, index: nat) {
    forall p :: 0 <= p < |marks| && marks[p].entry.index > index ==> marks[p].live
  }

  /** The live entries above an index are all entries above it exactly when none of them is stale. */
  lemma {:induction false} LiveAboveIsAll(marks: seq<Mark>, index: nat)
    ensures |After(LiveOf(marks), index)| <= |After(EntriesOf(marks), index)|
    ensures LiveAbove(marks, index) ==> After(LiveOf(marks), index) == After(EntriesOf(marks), index)
    ensures !LiveAbove(marks, index) ==> |After(LiveOf(marks), index)| < |After(EntriesOf(marks), index)|
  {
    if marks != [] {
      var n := |marks| - 1;
      var before, last := marks[..n], marks[n];
      LiveAboveIsAll(before, index);
      assert marks == before + [last];
      assert EntriesOf(marks) == EntriesOf(before) + [last.entry];
      AfterSnoc(EntriesOf(before), last.entry, index);
      LiveSnoc(before, last);
      if last.live {
        AfterSnoc(LiveOf(before), last.entry, index);
      } else {
        assert LiveOf(before) + [] == LiveOf(before);
      }
      assert LiveAbove(marks, index) <==> LiveAbove(before, index) && (last.entry.index > index ==> last.live);
    }
  }

  /** The replay has the log's entries above an index exactly when the start contributes none of them and none of the
      replayed ones is stale. */
  lemma SameAbove(marks: seq<Mark>, start: Log, base: nat, log: Log, replayed: Log, index: nat)
    requires start.Valid() && Annotates(marks, start, base, log, replayed) && index > log.snapshotIndex
    ensures After(replayed.entries, index) == After(log.entries, index)
            <==> start.snapshotIndex + base <= index && LiveAbove(marks, index)
  {
    var kept := start.entries[..base];
    AfterConcat(kept, LiveOf(marks), index);
    LiveAboveIsAll(marks, index);
    FiltersAreSlices(kept, start.snapshotIndex, index);
    if start.snapshotIndex + base > index {
      StartIsFirst(kept, marks, start.snapshotIndex, index);
    }
  }

  lemma StartIsFirst(kept: seq<LogEntry>, marks: seq<Mark>, snapshotIndex: nat, index: nat)
    requires Numbered(kept, snapshotIndex) && snapshotIndex < index < snapshotIndex + |kept|
    requires Placed(marks, snapshotIndex + |kept|)
    ensures After(EntriesOf(marks), index) != After(kept, index) + After(LiveOf(marks), index)
  {
    FiltersAreSlices(kept, snapshotIndex, index);
    AfterOnlyDrops(EntriesOf(marks), index);
    var first := kept[index - snapshotIndex];
    assert (After(kept, index) + After(LiveOf(marks), index))[0] == first && first.index == index + 1;
    assert first !in EntriesOf(marks);
    assert first !in After(EntriesOf(marks), index);
  }

  // ---- By record ----

  /** The place a record has in the replay: where it was put, unless it was cut off. */
  lemma {:induction false} MarkOfRecord(records: seq<Record>, k: nat)
    requires k < |records| && records[k].AppendRecord?
    requires forall j :: 0 <= j < |records| && records[j].TruncateRecord? ==> records[j].from >= 1
    ensures var p := Len(records[..k]);
            !CutOff(records, k) ==>
              p < |Marks(records)| && Marks(records)[p] == Mark(records[k].entry, Alive(records, k))
  {
    var n := |records| - 1;
    var prefix := records[..n];
    LenIsLength(prefix);
    if k == n {
      assert Marks(records) == Marks(prefix) + [Mark(records[n].entry, true)];
    } else {
      assert prefix[..k] == records[..k];
      MarkOfRecord(prefix, k);
      RecordsSnoc(prefix, records[n], k);
      assert records == prefix + [records[n]];
    }
  }

  /** What one more record does to what is known of an earlier one. */
  lemma RecordsSnoc(prefix: seq<Record>, r: Record, k: nat)
    requires k < |prefix| && prefix[k].AppendRecord?
    ensures CutOff(prefix + [r], k) <==> CutOff(prefix, k) || (r.TruncateRecord? && r.from <= Len(prefix[..k]) + 1)
    ensures Alive(prefix + [r], k) <==> Alive(prefix, k) && (r.TruncateRecord? ==> r.from > prefix[k].entry.index)
  {
    var all := prefix + [r];
    assert all[..k] == prefix[..k];
    assert all[|prefix|] == r;
    assert forall j :: 0 <= j < |prefix| ==> all[j] == prefix[j];
    if Alive(prefix + [r], k) {
      forall j | k < j < |prefix| && prefix[j].TruncateRecord?
        ensures prefix[j].from > prefix[k].entry.index
      {
        assert all[j] == prefix[j];
      }
    }
    if CutOff(prefix, k) {
      var j :| k < j < |prefix| && prefix[j].TruncateRecord? && prefix[j].from <= Len(prefix[..k]) + 1;
      assert all[j] == prefix[j];
    }
  }

  /** Every place in the replay belongs to a record that was not cut off. */
  lemma {:induction false} RecordOfMark(records: seq<Record>, p: nat) returns (k: nat)
    requires p < |Marks(records)|
    requires forall j :: 0 <= j < |records| && records[j].TruncateRecord? ==> records[j].from >= 1
    ensures k < |records| && records[k].AppendRecord? && Len(records[..k]) == p && !CutOff(records, k)
  {
    var n := |records| - 1;
    var prefix := records[..n];
    LenIsLength(prefix);
    if p == |Marks(prefix)| {
      k := n;
    } else {
      k := RecordOfMark(prefix, p);
      assert prefix[..k] == records[..k];
      RecordsSnoc(prefix, records[n], k);
      assert records == prefix + [records[n]];
    }
  }

  /** Every append above the index that was truncated in the log is cut off in the replay as well. */
  ghost predicate NoStale(records: seq<Record>, index: nat) {
    forall k :: 0 <= k < |records| && records[k].AppendRecord? && records[k].entry.index > index ==>
      Alive(records, k) || CutOff(records, k)
  }

  /** The first entry above the index, if there is one, was appended by one of the records. */
  ghost predicate Reaches(records: seq<Record>, log: Log, index: nat) {
    log.LastIndex() <= index || exists k: nat :: Alive(records, k) && records[k].entry.index == index + 1
  }

  lemma {:induction false} AptAt(start: Log, records: seq<Record>, k: nat)
    requires AllApt(start, records) && k < |records|
    ensures AllApt(start, records[..k]) && Apt(Redo(start, records[..k]), records[k])
  {
    var n := |records| - 1;
    if k < n {
      AptAt(start, records[..n], k);
      assert records[..n][..k] == records[..k];
    }
  }

  lemma TruncatesArePositive(start: Log, records: seq<Record>)
    requires AllApt(start, records)
    ensures forall j :: 0 <= j < |records| && records[j].TruncateRecord? ==> records[j].from >= 1
  {
    forall j | 0 <= j < |records| && records[j].TruncateRecord?
      ensures records[j].from >= 1
    {
      AptAt(start, records, j);
    }
  }

  /** A record whose entry the log still has is not cut off in the replay. */
  lemma AliveIsPlaced(start: Log, records: seq<Record>, k: nat)
    requires start.Valid() && AllApt(start, records) && Alive(records, k)
    ensures !CutOff(records, k)
  {
    AptAt(start, records, k);
    Annotated(start, records[..k]);
    LenIsLength(records[..k]);
  }

  lemma NoStaleByRecord(start: Log, records: seq<Record>, index: nat)
    requires AllApt(start, records)
    ensures LiveAbove(Marks(records), index) <==> NoStale(records, index)
  {
    var marks := Marks(records);
    TruncatesArePositive(start, records);
    if LiveAbove(marks, index) {
      forall k | 0 <= k < |records| && records[k].AppendRecord? && records[k].entry.index > index && !Alive(records, k)
        ensures CutOff(records, k)
      {
        MarkOfRecord(records, k);
      }
    }
    if NoStale(records, index) {
      forall p | 0 <= p < |marks| && marks[p].entry.index > index
        ensures marks[p].live
      {
        var k := RecordOfMark(records, p);
        MarkOfRecord(records, k);
      }
    }
  }

  lemma {:induction false} LiveComesFrom(marks: seq<Mark>, i: nat) returns (p: nat)
    requires i < |LiveOf(marks)|
    ensures p < |marks| && marks[p] == Mark(LiveOf(marks)[i], true)
  {
    p := |marks| - 1;
    if i < |LiveOf(marks[..p])| {
      p := LiveComesFrom(marks[..p], i);
    }
  }

  /** An entry the log has beyond those left from the start was appended by a record that is still alive. */
  lemma AppendedByRecord(start: Log, records: seq<Record>, log: Log, index: nat) returns (k: nat)
    requires Traces(start, records, log)
    requires start.snapshotIndex + Base(start, records) <= index < log.LastIndex()
    ensures Alive(records, k) && records[k].entry.index == index + 1
  {
    Annotated(start, records);
    TruncatesArePositive(start, records);
    var marks, at := Marks(records), index - start.snapshotIndex - Base(start, records);
    assert log.entries[index - log.snapshotIndex] == LiveOf(marks)[at];
    var p := LiveComesFrom(marks, at);
    k := RecordOfMark(records, p);
    MarkOfRecord(records, k);
  }

  lemma AliveIsBeyondBase(start: Log, records: seq<Record>, log: Log, k: nat)
    requires Traces(start, records, log) && Alive(records, k)
    ensures records[k].entry.index > start.snapshotIndex + Base(start, records)
  {
    Annotated(start, records);
    TruncatesArePositive(start, records);
    AliveIsPlaced(start, records, k);
    MarkOfRecord(records, k);
  }

  lemma ReachesByRecord(start: Log, records: seq<Record>, log: Log, index: nat)
    requires Traces(start, records, log) && index >= start.snapshotIndex
    ensures start.snapshotIndex + Base(start, records) <= index <==> Reaches(records, log, index)
  {
    Annotated(start, records);
    if log.LastIndex() > index {
      if start.snapshotIndex + Base(start, records) <= index {
        var _ := AppendedByRecord(start, records, log, index);
      }
      forall k: nat | Alive(records, k)
        ensures records[k].entry.index > start.snapshotIndex + Base(start, records)
      {
        AliveIsBeyondBase(start, records, log, k);
      }
    }
  }

  /** Replaying only these records gives the log's entries above an index if and only if they contain the append of the
      first of those entries, and cut off every append above the index that the log has truncated. */
  lemma ReplayIsExactAbove(start: Log, records: seq<Record>, log: Log, index: nat)
    requires Traces(start, records, log) && index > log.snapshotIndex
    ensures After(Redo(EMPTY, records).entries, index) == After(log.entries, index)
            <==> Reaches(records, log, index) && NoStale(records, index)
  {
    Annotated(start, records);
    SameAbove(Marks(records), start, Base(start, records), log, Redo(EMPTY, records), index);
    ReachesByRecord(start, records, log, index);
    NoStaleByRecord(start, records, index);
  }
}
