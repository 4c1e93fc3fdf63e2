/** What recovery hands back after a restart: the accepted entries that have not been applied, all of them, in order. */
module Pending {
  import opened Bytes
  import opened EntryCodec
  import opened WalStore
  import S = SegmentedLog

  // ---- Whole runs ----

  datatype Op = Logging(op: S.Op) | Applied(sequence: nat)

  /** The operations on the segments alone. */
  function LogOps(ops: seq<Op>): seq<S.Op> {
    if ops == [] then []
    else
      var op := ops[|ops| - 1];
      LogOps(ops[..|ops| - 1]) + if op.Logging? then [op.op] else []
  }

  /** The highest number reported as applied. */
  function AppliedUpTo(ops: seq<Op>): (r: nat)
    ensures r == 0 || Applied(r) in ops
    ensures forall op :: op in ops && op.Applied? ==> op.sequence <= r
  {
    if ops == [] then 0
    else
      var before, op := AppliedUpTo(ops[..|ops| - 1]), ops[|ops| - 1];
      assert forall o :: o in ops ==> o in ops[..|ops| - 1] || o == op;
      if op.Applied? && op.sequence > before then op.sequence else before
  }

  /** What `recover` returns after these operations. */
  function Recovered(ops: seq<Op>, max: nat): seq<Entry> {
    S.Run(LogOps(ops), max).ReadFrom(AppliedUpTo(ops) + 1)
  }

  /** Truncation never goes past what has been applied by then. */
  ghost predicate Careful(ops: seq<Op>) {
    forall i :: 0 <= i < |ops| && ops[i].Logging? && ops[i].op.DoTruncate? ==>
      ops[i].op.before <= AppliedUpTo(ops[..i]) + 1
  }

  lemma {:induction false} CarefulBound(ops: seq<Op>)
    requires Careful(ops)
    ensures S.Bound(LogOps(ops)) <= AppliedUpTo(ops) + 1
  {
    if ops != [] {
      var prefix, op := ops[..|ops| - 1], ops[|ops| - 1];
      assert forall i :: 0 <= i < |prefix| ==> prefix[..i] == ops[..i];
      CarefulBound(prefix);
      if op.Logging? {
        assert (LogOps(prefix) + [op.op])[..|LogOps(prefix)|] == LogOps(prefix);
      } else {
        assert LogOps(prefix) + [] == LogOps(prefix);
      }
    }
  }

  /** Recovery is complete: after any run that truncates no further than it has applied, it hands back exactly the
      accepted payloads past the highest applied number, and all of them if nothing was applied. */
  lemma RecoveryIsComplete(ops: seq<Op>, max: nat)
    requires S.Storable(LogOps(ops)) && S.NeverReset(LogOps(ops), max) && Careful(ops)
    requires AppliedUpTo(ops) <= |S.Accepted(LogOps(ops), max)|
    ensures Recovered(ops, max) == S.Tail(S.Accepted(LogOps(ops), max), AppliedUpTo(ops) + 1)
  {
    CarefulBound(ops);
    S.ReadsFindEverything(LogOps(ops), max, AppliedUpTo(ops) + 1);
  }

  // ---- On the files ----

  function Numbered(payloads: seq<Bytes>, first: nat): (r: seq<Entry>)
    ensures |r| == |payloads| && forall i :: 0 <= i < |r| ==> r[i] == Entry(first + i, payloads[i])
  {
    seq(|payloads|, i requires 0 <= i < |payloads| => Entry(first + i, payloads[i]))
  }

  /** A log that never lost an entry holds just these payloads. */
  ghost predicate Holds(s: S.WalState, payloads: seq<Bytes>) {
    s.next == |payloads| + 1 && s.Contents() == Numbered(payloads, 1)
  }

  lemma {:induction false} HoldsMore(s: S.WalState, payloads: seq<Bytes>, i: nat, max: nat)
    requires i < |payloads| && Holds(s, payloads[..i]) && HEADER_SIZE + |payloads[i]| <= max
    ensures Holds(s.Append(payloads[i], max), payloads[..i + 1])
  {
    S.AppendOutcome(s, payloads[i], max);
    assert Numbered(payloads[..i + 1], 1) == Numbered(payloads[..i], 1) + [Entry(i + 1, payloads[i])];
  }

  lemma {:induction false} NoneAndAll(payloads: seq<Bytes>)
    ensures payloads[..0] == [] && payloads[..|payloads|] == payloads
  {}

  lemma {:induction false} ReopenedReads(s: S.WalState, payloads: seq<Bytes>, applied: nat)
    requires Holds(s, payloads) && applied <= |payloads|
    ensures s.Reopen().ReadFrom(applied + 1) == Numbered(payloads, 1)[applied..]
  {
    S.FromIsSuffix(Numbered(payloads, 1), |payloads| + 1, applied + 1);
  }

  ghost predicate AllFitUnder(payloads: seq<Bytes>, max: nat) {
    forall i :: 0 <= i < |payloads| ==> |payloads[i]| < U32 && HEADER_SIZE + |payloads[i]| <= max
  }

  method AppendNext(wal: Wal, payloads: seq<Bytes>, i: nat)
    requires wal.Valid() && i < |payloads| < U64 - 1 && Holds(wal.state, payloads[..i])
    requires AllFitUnder(payloads, wal.maxBytes)
    modifies wal, wal.active, wal.disk`segments
    ensures wal.Valid() && Holds(wal.state, payloads[..i + 1])
    ensures wal.active == old(wal.active) || fresh(wal.active)
  {
    HoldsMore(wal.state, payloads, i, wal.maxBytes);
    var _ := wal.Append(payloads[i]);
  }

  /** Appends one payload after the other. */
  method AppendAll(wal: Wal, payloads: seq<Bytes>)
    requires wal.Valid() && Holds(wal.state, []) && |payloads| < U64 - 1 && AllFitUnder(payloads, wal.maxBytes)
    modifies wal, wal.active, wal.disk`segments
    ensures wal.Valid() && Holds(wal.state, payloads)
  {
    NoneAndAll(payloads);
    for i := 0 to |payloads|
      invariant wal.active == old(wal.active) || fresh(wal.active)
      invariant wal.Valid() && Holds(wal.state, payloads[..i])
    {
      AppendNext(wal, payloads, i);
    }
  }

  /** Opening the files a log left behind. */
  method Reopen(disk: Disk, maxBytes: nat, ghost state: S.WalState) returns (wal: Wal)
    requires Stored(disk.hash, disk.segments, state)
    modifies disk`segments
    ensures fresh(wal) && wal.disk == disk && wal.Valid() && wal.state == state.Reopen()
    ensures wal.checkpoint.sequence == CheckpointIn(disk.checkpoint)
  {
    ReadingIsReopen(disk.hash, disk.segments, state);
    var opening := Wal.Open(disk, maxBytes);
    wal := opening.value;
  }

  method Begin(disk: Disk, maxBytes: nat) returns (wal: Wal)
    requires disk.segments == map[] && disk.checkpoint == None
    modifies disk`segments
    ensures fresh(wal) && fresh(wal.active) && fresh(wal.checkpoint) && wal.disk == disk && wal.maxBytes == maxBytes
    ensures wal.Valid() && wal.state == S.FRESH && wal.checkpoint.sequence == 0
  {
    var opening := Wal.Open(disk, maxBytes);
    wal := opening.value;
  }

  /** A new log is given some payloads and told how many of them have been applied. */
  method Fill(disk: Disk, maxBytes: nat, payloads: seq<Bytes>, applied: nat) returns (ghost state: S.WalState)
    requires disk.segments == map[] && disk.checkpoint == None
    requires applied <= |payloads| < U64 - 1 && AllFitUnder(payloads, maxBytes)
    modifies disk
    ensures Stored(disk.hash, disk.segments, state) && Holds(state, payloads)
    ensures CheckpointIn(disk.checkpoint) == applied
  {
    var wal := Begin(disk, maxBytes);
    AppendAll(wal, payloads);
    wal.Checkpoint(applied);
    state := wal.state;
  }

  /** What a log left behind gives back when it is opened and recovered. */
  method RecoverFrom(disk: Disk, maxBytes: nat, ghost state: S.WalState) returns (r: Result<seq<Entry>>)
    requires Stored(disk.hash, disk.segments, state)
    modifies disk`segments
    ensures r == Ok(state.Reopen().ReadFrom(CheckpointIn(disk.checkpoint) + 1))
  {
    var wal := Reopen(disk, maxBytes, state);
    r := wal.Recover();
  }

  /** Opened again, it hands back the others. */
  method Session(disk: Disk, maxBytes: nat, payloads: seq<Bytes>, applied: nat) returns (r: Result<seq<Entry>>)
    requires disk.segments == map[] && disk.checkpoint == None
    requires applied <= |payloads| < U64 - 1 && AllFitUnder(payloads, maxBytes)
    modifies disk
    ensures r == Ok(Numbered(payloads, 1)[applied..])
  {
    ghost var state := Fill(disk, maxBytes, payloads, applied);
    r := RecoverFrom(disk, maxBytes, state);
    ReopenedReads(state, payloads, applied);
  }
}
