/** The replicated log as records of the write-ahead log, and rebuilding it by replaying them. */
module Recovery {
  import opened Bytes
  import opened Log
  import opened EntryCodec
  import S = SegmentedLog

  datatype Record =
    | AppendRecord(entry: LogEntry)
    | TruncateRecord(from: nat)
    | SnapshotRecord(index: nat, term: nat)
    | Skipped

  const KIND_APPEND: byte := 1
  const KIND_TRUNCATE: byte := 2
  const KIND_SNAPSHOT: byte := 3

  // ---- Payloads ----

  function EncodeAppend(e: LogEntry): Bytes {
    [KIND_APPEND] + ToLe(e.index, 8) + ToLe(e.term, 8) + e.data
  }

  function EncodeTruncate(from: nat): Bytes {
    [KIND_TRUNCATE] + ToLe(from, 8)
  }

  function EncodeSnapshot(index: nat, term: nat): Bytes {
    [KIND_SNAPSHOT] + ToLe(index, 8) + ToLe(term, 8)
  }

  /** What replay makes of a payload; empty, unknown and short ones are passed over. */
  function Decode(payload: Bytes): Record {
    if payload == [] then Skipped
    else if payload[0] == KIND_APPEND && |payload| >= 17 then
      AppendRecord(LogEntry(FromLe(payload[9..17]), FromLe(payload[1..9]), payload[17..]))
    else if payload[0] == KIND_TRUNCATE && |payload| >= 9 then
      TruncateRecord(FromLe(payload[1..9]))
    else if payload[0] == KIND_SNAPSHOT && |payload| >= 17 then
      SnapshotRecord(FromLe(payload[1..9]), FromLe(payload[9..17]))
    else Skipped
  }

  lemma PayloadsDecode(e: LogEntry, from: nat, index: nat, term: nat)
    requires e.index < U64 && e.term < U64 && from < U64 && index < U64 && term < U64
    ensures Decode(EncodeAppend(e)) == AppendRecord(e)
    ensures Decode(EncodeTruncate(from)) == TruncateRecord(from)
    ensures Decode(EncodeSnapshot(index, term)) == SnapshotRecord(index, term)
  {
    AppendDecodes(e);
    TruncateDecodes(from);
    SnapshotDecodes(index, term);
  }

  lemma AppendDecodes(e: LogEntry)
    requires e.index < U64 && e.term < U64
    ensures Decode(EncodeAppend(e)) == AppendRecord(e)
  {
    var p := EncodeAppend(e);
    Le64(e.index);
    Le64(e.term);
    assert p[1..9] == ToLe(e.index, 8);
    assert p[9..17] == ToLe(e.term, 8);
    assert p[17..] == e.data;
  }

  lemma TruncateDecodes(from: nat)
    requires from < U64
    ensures Decode(EncodeTruncate(from)) == TruncateRecord(from)
  {
    Le64(from);
    assert EncodeTruncate(from)[1..9] == ToLe(from, 8);
  }

  lemma SnapshotDecodes(index: nat, term: nat)
    requires index < U64 && term < U64
    ensures Decode(EncodeSnapshot(index, term)) == SnapshotRecord(index, term)
  {
    Le64(index);
    Le64(term);
    assert EncodeSnapshot(index, term)[1..9] == ToLe(index, 8);
    assert EncodeSnapshot(index, term)[9..17] == ToLe(term, 8);
  }

  // ---- Replay ----

  /** One step of the replay loop, which knows nothing of the operation that wrote the record. */
  function ReplayOne(log: Log, r: Record): Log {
    match r
    case AppendRecord(e) =>
      if e.index <= log.snapshotIndex then log
      else
        var offset := e.index - log.snapshotIndex - 1;
        log.(entries := if offset < |log.entries| then log.entries[offset := e] else log.entries + [e])
    case TruncateRecord(from) =>
      if from <= log.snapshotIndex then log
      else
        var trimTo := from - log.snapshotIndex - 1;
        log.(entries := if trimTo < |log.entries| then log.entries[..trimTo] else log.entries)
    case SnapshotRecord(index, term) => Log(index, term, After(log.entries, index))
    case Skipped => log
  }

  function Replay(entries: seq<Entry>): Log {
    if entries == [] then EMPTY
    else ReplayOne(Replay(entries[..|entries| - 1]), Decode(entries[|entries| - 1].data))
  }

  lemma ReplaySnoc(entries: seq<Entry>, e: Entry)
    ensures Replay(entries + [e]) == ReplayOne(Replay(entries), Decode(e.data))
  {
    assert (entries + [e])[..|entries|] == entries;
  }

  /** Replaying the record of an append or a truncation does to a log what the operation did. */
  lemma ReplayRedoes(log: Log, term: nat, data: Bytes, from: nat)
    requires log.Valid()
    ensures ReplayOne(log, AppendRecord(LogEntry(term, log.LastIndex() + 1, data))) == log.Append(term, data)
    ensures log.Truncates(from) ==> ReplayOne(log, TruncateRecord(from)) == log.TruncateFrom(from)
  {}

  /** On a valid log compaction and snapshot installation agree with each other and with the replay of their marker. */
  lemma ReplayRedoesSnapshot(log: Log, index: nat, term: nat)
    requires log.Valid() && index > log.snapshotIndex
    ensures log.Compact(index, term) == log.InstallSnapshot(index, term)
    ensures ReplayOne(log, SnapshotRecord(index, term)) == log.InstallSnapshot(index, term)
  {
    FiltersAreSlices(log.entries, log.snapshotIndex, index);
  }

  /** Replaying an append puts the entry where its index says, if that is not past the end or compacted away, and leaves
      all others; what is at or before the snapshot point is passed over. */
  lemma ReplayPlaces(log: Log, e: LogEntry, from: nat)
    requires log.Valid() && e.index <= log.LastIndex() + 1
    ensures var n := ReplayOne(log, AppendRecord(e));
            && n.Valid() && n.snapshotIndex == log.snapshotIndex && n.snapshotTerm == log.snapshotTerm
            && (e.index > log.snapshotIndex ==>
                  n.LastIndex() == (if e.index > log.LastIndex() then e.index else log.LastIndex())
                  && n.entries[e.index - log.snapshotIndex - 1] == e)
            && forall i :: 0 <= i < |log.entries| && log.entries[i].index != e.index ==> n.entries[i] == log.entries[i]
    ensures e.index <= log.snapshotIndex ==> ReplayOne(log, AppendRecord(e)) == log
    ensures from <= log.snapshotIndex || from > log.LastIndex() ==> ReplayOne(log, TruncateRecord(from)) == log
  {
    if from > log.LastIndex() {
      assert log.entries[..|log.entries|] == log.entries;
    }
  }

  /** A record replayed twice in a row does no more than once. */
  lemma ReplayTwice(log: Log, r: Record)
    requires log.Valid() && (r.AppendRecord? ==> r.entry.index <= log.LastIndex() + 1)
    ensures ReplayOne(ReplayOne(log, r), r) == ReplayOne(log, r)
  {
    if r.SnapshotRecord? {
      AfterTwice(log.entries, r.index);
    }
  }

  lemma {:induction false} AfterTwice(entries: seq<LogEntry>, index: nat)
    ensures After(After(entries, index), index) == After(entries, index)
  {
    if entries != [] {
      AfterTwice(entries[1..], index);
      var kept := After(entries[1..], index);
      if entries[0].index > index {
        assert ([entries[0]] + kept)[1..] == kept;
      } else {
        assert [] + kept == kept;
      }
    }
  }

  // ---- The log and the write-ahead log under it ----

  datatype Store = Store(log: Log, wal: S.WalState) {
    ghost predicate Valid() {
      log.Valid() && wal.WellFormed()
    }

    /** Replaying what is on disk gives the log in memory. */
    ghost predicate Recoverable() {
      Replay(wal.Contents()) == log
    }

    /** Log the payload; only if that succeeds does memory change. */
    function Logged(payload: Bytes, max: nat, log': Log): Store {
      Store(if HEADER_SIZE + |payload| <= max then log' else log, wal.Append(payload, max))
    }

    function Append(term: nat, data: Bytes, max: nat): Store {
      Logged(EncodeAppend(LogEntry(term, log.LastIndex() + 1, data)), max, log.Append(term, data))
    }

    function TruncateFrom(from: nat, max: nat): Store {
      if log.Truncates(from) then Logged(EncodeTruncate(from), max, log.TruncateFrom(from)) else this
    }

    /** Log a marker, then delete every sealed segment before it. */
    function Marked(index: nat, term: nat, max: nat, log': Log): Store {
      var s := Logged(EncodeSnapshot(index, term), max, log');
      if HEADER_SIZE + |EncodeSnapshot(index, term)| <= max then s.(wal := s.wal.TruncateBefore(wal.next)) else s
    }

    function Compact(index: nat, term: nat, max: nat): Store {
      if index <= log.snapshotIndex then this else Marked(index, term, max, log.Compact(index, term))
    }

    function InstallSnapshot(index: nat, term: nat, max: nat): Store {
      if index <= log.snapshotIndex then this else Marked(index, term, max, log.InstallSnapshot(index, term))
    }

    function Reopen(): Store {
      Store(Replay(wal.Contents()), wal.Reopen())
    }

    /** The records that outlive a marker: what the segment that receives it already held. */
    function Survivors(max: nat): seq<Entry> {
      wal.Rotated(HEADER_SIZE + 17, max).active.entries
    }
  }

  lemma LoggedIsReplayed(s: Store, payload: Bytes, max: nat, log': Log)
    requires s.Recoverable()
    requires ReplayOne(s.log, Decode(payload)) == log'
    ensures s.Logged(payload, max, log').Recoverable()
  {
    S.AppendOutcome(s.wal, payload, max);
    ReplaySnoc(s.wal.Contents(), Entry(s.wal.next, payload));
  }

  /** Appends and truncations, refused ones included, keep the log recoverable. */
  lemma AppendKeepsRecoverable(s: Store, term: nat, data: Bytes, max: nat)
    requires s.Valid() && s.Recoverable() && term < U64 && s.log.LastIndex() + 1 < U64
    ensures s.Append(term, data, max).Recoverable()
  {
    var e := LogEntry(term, s.log.LastIndex() + 1, data);
    AppendDecodes(e);
    ReplayRedoes(s.log, term, data, 0);
    LoggedIsReplayed(s, EncodeAppend(e), max, s.log.Append(term, data));
  }

  lemma TruncateKeepsRecoverable(s: Store, from: nat, max: nat)
    requires s.Valid() && s.Recoverable() && from < U64
    ensures s.TruncateFrom(from, max).Recoverable()
  {
    if s.log.Truncates(from) {
      TruncateDecodes(from);
      ReplayRedoes(s.log, 0, [], from);
      LoggedIsReplayed(s, EncodeTruncate(from), max, s.log.TruncateFrom(from));
    }
  }

  // ---- Markers and deleted segments ----

  lemma {:induction false} KeepNone(sealed: seq<S.Chunk>, before: nat)
    requires before > 0 && forall e :: e in S.Flat(sealed) ==> e.sequence < before
    ensures S.Keep(sealed, before) == []
  {
    if sealed != [] {
      var c, rest := sealed[0].entries, S.Flat(sealed[1..]);
      assert S.Flat(sealed) == c + rest;
      MaxBelow(c, before);
      KeepNone(sealed[1..], before);
    }
  }

  lemma {:induction false} MaxBelow(entries: seq<Entry>, before: nat)
    requires before > 0 && forall e :: e in entries ==> e.sequence < before
    ensures S.MaxSequence(entries) < before
  {
    if entries != [] {
      MaxBelow(entries[1..], before);
    }
  }

  /** A marker leaves on disk the records of the segment it was written to, and itself. */
  lemma MarkerLeaves(s: Store, index: nat, term: nat, max: nat, log': Log)
    requires s.Valid() && HEADER_SIZE + 17 <= max
    ensures s.Marked(index, term, max, log').log == log'
    ensures s.Marked(index, term, max, log').wal.Contents()
            == s.Survivors(max) + [Entry(s.wal.next, EncodeSnapshot(index, term))]
  {
    var payload, r := EncodeSnapshot(index, term), s.wal.Rotated(HEADER_SIZE + 17, max);
    assert |payload| == 17;
    var t := s.wal.Append(payload, max);
    assert t.sealed == r.sealed;
    S.FlatSnoc(s.wal.sealed, s.wal.active);
    assert r.Contents() == s.wal.Contents();
    forall e | e in S.Flat(r.sealed)
      ensures e.sequence < s.wal.next
    {
      var i :| 0 <= i < |S.Flat(r.sealed)| && S.Flat(r.sealed)[i] == e;
      assert r.Contents()[i] == e;
    }
    KeepNone(r.sealed, s.wal.next);
    assert S.Flat([]) == [];
  }

  /** After a snapshot marker a replay finds what the surviving records alone replay to, past the marker. */
  lemma MarkerReplaysSurvivors(s: Store, index: nat, term: nat, max: nat)
    requires s.Valid() && index > s.log.snapshotIndex && index < U64 && term < U64 && HEADER_SIZE + 17 <= max
    ensures s.Compact(index, term, max) == s.InstallSnapshot(index, term, max)
    ensures s.Compact(index, term, max).Recoverable()
            <==> After(Replay(s.Survivors(max)).entries, index) == After(s.log.entries, index)
  {
    ReplayRedoesSnapshot(s.log, index, term);
    MarkerLeaves(s, index, term, max, s.log.Compact(index, term));
    SnapshotDecodes(index, term);
    ReplaySnoc(s.Survivors(max), Entry(s.wal.next, EncodeSnapshot(index, term)));
  }

  lemma {:induction false} AfterOnlyDrops(entries: seq<LogEntry>, index: nat)
    ensures forall x :: x in After(entries, index) <==> x in entries && x.index > index
  {
    if entries != [] {
      AfterOnlyDrops(entries[1..], index);
    }
  }

  // ---- Whole runs ----

  datatype Op =
    | DoAppend(term: nat, data: Bytes)
    | DoTruncate(from: nat)
    | DoCompact(index: nat, term: nat)
    | DoInstall(index: nat, term: nat)
    | DoReopen

  function Apply(s: Store, op: Op, max: nat): Store {
    match op
    case DoAppend(term, data) => s.Append(term, data, max)
    case DoTruncate(from) => s.TruncateFrom(from, max)
    case DoCompact(index, term) => s.Compact(index, term, max)
    case DoInstall(index, term) => s.InstallSnapshot(index, term, max)
    case DoReopen => s.Reopen()
  }

  const FRESH := Store(EMPTY, S.FRESH)

  function Run(ops: seq<Op>, max: nat): Store {
    if ops == [] then FRESH else Apply(Run(ops[..|ops| - 1], max), ops[|ops| - 1], max)
  }

  /** Every number the operation stores fits its field. */
  predicate Storable(s: Store, op: Op) {
    && s.wal.next < U64
    && match op
       case DoAppend(term, data) => term < U64 && s.log.LastIndex() + 1 < U64 && |data| + 17 < U32
       case DoTruncate(from) => from < U64
       case DoCompact(index, term) => index < U64 && term < U64
       case DoInstall(index, term) => index < U64 && term < U64
       case DoReopen => true
  }

  lemma MarkedIsValid(s: Store, index: nat, term: nat, max: nat, log': Log)
    requires s.Valid() && log'.Valid() && s.wal.next < U64
    ensures s.Marked(index, term, max, log').Valid()
  {
    var payload := EncodeSnapshot(index, term);
    S.AppendKeepsWellFormed(s.wal, payload, max);
    S.TruncateKeepsWellFormed(s.wal.Append(payload, max), s.wal.next);
  }

  lemma StepIsValid(s: Store, op: Op, max: nat)
    requires s.Valid() && s.Recoverable() && Storable(s, op)
    ensures Apply(s, op, max).Valid()
  {
    match op {
      case DoAppend(term, data) =>
        MutatorsKeepValid(s.log, 0, term, data);
        S.AppendKeepsWellFormed(s.wal, EncodeAppend(LogEntry(term, s.log.LastIndex() + 1, data)), max);
      case DoTruncate(from) =>
        MutatorsKeepValid(s.log, from, 0, []);
        S.AppendKeepsWellFormed(s.wal, EncodeTruncate(from), max);
      case DoCompact(index, term) =>
        MutatorsKeepValid(s.log, index, term, []);
        MarkedIsValid(s, index, term, max, s.log.Compact(index, term));
      case DoInstall(index, term) =>
        MutatorsKeepValid(s.log, index, term, []);
        MarkedIsValid(s, index, term, max, s.log.InstallSnapshot(index, term));
      case DoReopen =>
        S.ReopenRestoresNext(s.wal);
    }
  }

  lemma RunSnoc(ops: seq<Op>, op: Op, max: nat)
    ensures Run(ops + [op], max) == Apply(Run(ops, max), op, max)
  {
    assert (ops + [op])[..|ops|] == ops;
  }
}
