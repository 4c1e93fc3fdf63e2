/** The replicated log object: its in-memory entries and the write-ahead log that backs them. */
module RaftLogStore {
  import opened Bytes
  import L = Log
  import opened EntryCodec
  import R = Recovery
  import S = SegmentedLog
  import opened WalStore

  /** Opening what a log left on disk is what `Reopen` says. */
  lemma OpeningReopens(hash: Hash, segments: map<nat, Bytes>, s: R.Store)
    requires Stored(hash, segments, s.wal)
    ensures Intact(hash, segments)
    ensures R.Store(R.Replay(Reading(hash, segments).Contents()), Reading(hash, segments)) == s.Reopen()
  {
    ReadingIsReopen(hash, segments, s.wal);
    S.ReopenRestoresNext(s.wal);
  }

  /** The replay loop of `open`. */
  method Rebuild(all: seq<Entry>) returns (entries: seq<L.LogEntry>, snapshotIndex: nat, snapshotTerm: nat)
    ensures L.Log(snapshotIndex, snapshotTerm, entries) == R.Replay(all)
  {
    entries, snapshotIndex, snapshotTerm := [], 0, 0;
    var i := 0;
    while i < |all|
      invariant 0 <= i <= |all|
      invariant L.Log(snapshotIndex, snapshotTerm, entries) == R.Replay(all[..i])
    {
      assert all[..i + 1] == all[..i] + [all[i]];
      R.ReplaySnoc(all[..i], all[i]);
      match R.Decode(all[i].data) {
        case AppendRecord(e) =>
          if e.index > snapshotIndex {
            var offset := e.index - snapshotIndex - 1;
            if offset < |entries| {
              entries := entries[offset := e];
            } else {
              entries := entries + [e];
            }
          }
        case TruncateRecord(from) =>
          if from > snapshotIndex + 1 {
            var trimTo := from - snapshotIndex - 1;
            if trimTo < |entries| {
              entries := entries[..trimTo];
            }
          } else if from == snapshotIndex + 1 {
            entries := [];
          }
        case SnapshotRecord(index, term) =>
          snapshotIndex, snapshotTerm := index, term;
          entries := L.After(entries, snapshotIndex);
        case Skipped =>
      }
      i := i + 1;
    }
    assert all[..|all|] == all;
  }

  lemma MarkedMemory(s: R.Store, index: nat, term: nat, max: nat, log': L.Log)
    requires HEADER_SIZE + 17 <= max
    ensures s.Marked(index, term, max, log') == R.Store(log', s.Marked(index, term, max, s.log).wal)
  {}

  lemma AppendedStore(s: R.Store, term: nat, data: Bytes, max: nat)
    ensures var payload := R.EncodeAppend(L.LogEntry(term, s.log.LastIndex() + 1, data));
            && |payload| == 17 + |data|
            && s.Append(term, data, max)
               == R.Store(if HEADER_SIZE + 17 + |data| <= max then s.log.Append(term, data) else s.log,
                          s.wal.Append(payload, max))
  {}

  class RaftLog {
    const wal: Wal
    var entries: seq<L.LogEntry>
    var snapshotIndex: nat
    var snapshotTerm: nat

    /** What memory holds. */
    function Memory(): L.Log
      reads this
    {
      L.Log(snapshotIndex, snapshotTerm, entries)
    }

    /** Memory and disk together. */
    ghost function Store(): R.Store
      reads this, wal
    {
      R.Store(Memory(), wal.state)
    }

    constructor (wal: Wal, entries: seq<L.LogEntry>, snapshotIndex: nat, snapshotTerm: nat)
      ensures this.wal == wal && Memory() == L.Log(snapshotIndex, snapshotTerm, entries)
    {
      this.wal := wal;
      this.entries, this.snapshotIndex, this.snapshotTerm := entries, snapshotIndex, snapshotTerm;
    }

    /** Opens the log of a directory: memory is the replay of every record that can be read there, and an unreadable
        record is an error. */
    static method Open(disk: Disk, maxBytes: nat) returns (r: Result<RaftLog>)
      modifies disk`segments
      ensures r.Ok? ==> fresh(r.value) && r.value.wal.disk == disk && r.value.wal.maxBytes == maxBytes
      ensures old(disk.segments) == map[] ==> r.Ok? && r.value.wal.Valid() && r.value.Store() == R.FRESH
      ensures old(disk.segments) != map[] ==>
                var all := ReadAll(disk.hash, old(disk.segments), Sorted(old(disk.segments).Keys), 1);
                if Resumption(disk.hash, old(disk.segments)).Err?
                then r == Err(Resumption(disk.hash, old(disk.segments)).error)
                else if all.Err? then r == Err(all.error)
                else r.Ok? && r.value.Memory() == R.Replay(all.value)
      ensures Intact(disk.hash, old(disk.segments)) ==>
                && r.Ok? && r.value.wal.Valid()
                && r.value.wal.state == Reading(disk.hash, old(disk.segments))
                && r.value.Memory() == R.Replay(r.value.wal.state.Contents())
    {
      var walOpened := Wal.Open(disk, maxBytes);
      if walOpened.Err? {
        return Err(walOpened.error);
      }
      var wal := walOpened.value;
      if wal.Valid() {
        wal.ReadsBack(1);
        AllPastZero(wal.state);
      }
      var all := wal.ReadFrom(1);
      if all.Err? {
        return Err(all.error);
      }
      var entries, snapshotIndex, snapshotTerm := Rebuild(all.value);
      var log := new RaftLog(wal, entries, snapshotIndex, snapshotTerm);
      r := Ok(log);
    }

    /** Appends at the end; if the record cannot be written, memory does not change. */
    method Append(term: nat, data: Bytes) returns (r: Result<nat>)
      requires wal.Valid() && wal.nextSequence < U64
      requires term < U64 && Memory().LastIndex() + 1 < U64 && |data| + 17 < U32
      modifies this, wal, wal.active, wal.disk`segments
      ensures wal.Valid() && Store() == old(Store()).Append(term, data, wal.maxBytes)
      ensures r == if HEADER_SIZE + 17 + |data| > wal.maxBytes
                   then Err(SegmentFull(0, wal.maxBytes, HEADER_SIZE + 17 + |data|))
                   else Ok(old(Memory()).LastIndex() + 1)
    {
      var index := snapshotIndex + |entries| + 1;
      var entry := L.LogEntry(term, index, data);
      AppendedStore(Store(), term, data, wal.maxBytes);
      var written := wal.Append(R.EncodeAppend(entry));
      if written.Err? {
        return Err(written.error);
      }
      entries := entries + [entry];
      r := Ok(index);
    }

    /** Removes the entries from `from` on. */
    method TruncateFrom(from: nat) returns (r: Result<()>)
      requires wal.Valid() && wal.nextSequence < U64 && from < U64
      modifies this, wal, wal.active, wal.disk`segments
      ensures wal.Valid() && Store() == old(Store()).TruncateFrom(from, wal.maxBytes)
      ensures r.Ok? <==> !old(Memory()).Truncates(from) || HEADER_SIZE + 9 <= wal.maxBytes
    {
      if from <= snapshotIndex || from > snapshotIndex + |entries| {
        return Ok(());
      }
      var written := wal.Append(R.EncodeTruncate(from));
      if written.Err? {
        return Err(written.error);
      }
      var trimTo := from - snapshotIndex - 1;
      entries := entries[..trimTo];
      r := Ok(());
    }

    /** Logs a snapshot marker, checkpoints it and deletes the segments sealed before it. */
    method Mark(index: nat, term: nat) returns (r: Result<()>)
      requires wal.Valid() && wal.nextSequence < U64 && index < U64 && term < U64
      modifies wal, wal.active, wal.disk`segments, wal.checkpoint, wal.disk`checkpoint
      ensures wal.Valid() && wal.state == old(Store()).Marked(index, term, wal.maxBytes, old(Memory())).wal
      ensures r.Ok? <==> HEADER_SIZE + 17 <= wal.maxBytes
      ensures var marker := old(wal.nextSequence);
              wal.checkpoint.sequence == if r.Ok? && marker > old(wal.checkpoint.sequence) then marker
                                         else old(wal.checkpoint.sequence)
    {
      var written := wal.Append(R.EncodeSnapshot(index, term));
      if written.Err? {
        return Err(written.error);
      }
      wal.Checkpoint(written.value);
      wal.ValidIsReadable();
      r := wal.TruncateBefore(written.value);
    }

    /** Drops the entries up to `index`, which are in a snapshot. */
    method Compact(index: nat, term: nat) returns (r: Result<()>)
      requires wal.Valid() && wal.nextSequence < U64 && index < U64 && term < U64
      modifies this, wal, wal.active, wal.disk`segments, wal.checkpoint, wal.disk`checkpoint
      ensures wal.Valid() && Store() == old(Store()).Compact(index, term, wal.maxBytes)
      ensures r.Ok? <==> index <= old(snapshotIndex) || HEADER_SIZE + 17 <= wal.maxBytes
    {
      if index <= snapshotIndex {
        return Ok(());
      }
      r := Mark(index, term);
      if r.Err? {
        return;
      }
      var lastIndex := snapshotIndex + |entries|;
      var trim := (if index < lastIndex then index else lastIndex) - snapshotIndex;
      if trim >= |entries| {
        entries := [];
      } else {
        entries := entries[trim..];
      }
      snapshotIndex, snapshotTerm := index, term;
    }

    /** Takes over a snapshot from the leader; entries past it stay. */
    method InstallSnapshot(index: nat, term: nat) returns (r: Result<()>)
      requires wal.Valid() && wal.nextSequence < U64 && index < U64 && term < U64
      modifies this, wal, wal.active, wal.disk`segments, wal.checkpoint, wal.disk`checkpoint
      ensures wal.Valid() && Store() == old(Store()).InstallSnapshot(index, term, wal.maxBytes)
      ensures r.Ok? <==> index <= old(snapshotIndex) || HEADER_SIZE + 17 <= wal.maxBytes
    {
      if index <= snapshotIndex {
        return Ok(());
      }
      r := Mark(index, term);
      if r.Err? {
        return;
      }
      entries := L.After(entries, index);
      snapshotIndex, snapshotTerm := index, term;
      assert Memory() == old(Memory()).InstallSnapshot(index, term);
      MarkedMemory(old(Store()), index, term, wal.maxBytes, Memory());
    }
  }
}
