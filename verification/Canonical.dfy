/** Exactly which bytes each decoder accepts, and what it says of the others. */
module Canonical {
  import opened Bytes
  import opened Log
  import opened EntryCodec
  import SnapshotCodec
  import NodeModel
  import Snapshots
  import PersistentState
  import Recovery

  /** Any bytes are the coding of the number they decode to. */
  lemma {:induction false} LeIsOnto(bs: Bytes)
    ensures ToLe(FromLe(bs), |bs|) == bs
  {
    if bs != [] {
      LeIsOnto(bs[1..]);
      assert FromLe(bs) % 256 == bs[0] && FromLe(bs) / 256 == FromLe(bs[1..]);
    }
  }

  lemma Le32Onto(bs: Bytes)
    requires |bs| == 4
    ensures FromLe(bs) < U32 && ToLe(FromLe(bs), 4) == bs
  {
    LeIsOnto(bs);
    FromLeInRange(bs);
    Ranges();
  }

  lemma Le64Onto(bs: Bytes)
    requires |bs| == 8
    ensures FromLe(bs) < U64 && ToLe(FromLe(bs), 8) == bs
  {
    LeIsOnto(bs);
    FromLeInRange(bs);
    Ranges();
  }

  // ---- Entries of the write-ahead log ----

  /** What is decoded is what these very bytes encode. */
  lemma DecodedIsEncoded(hash: Hash, buf: Bytes, offset: nat)
    requires Decode(hash, buf, offset).Ok?
    ensures var (e, n) := Decode(hash, buf, offset).value;
            Fits(e) && n == HEADER_SIZE + |e.data| && buf == Encode(hash, e.sequence, e.data) + buf[n..]
  {
    Le64Onto(buf[0..8]);
    Le32Onto(buf[8..12]);
    Le32Onto(buf[12..16]);
    HeaderAndRest(buf, Decode(hash, buf, offset).value.1);
  }

  lemma HeaderAndRest(buf: Bytes, n: nat)
    requires HEADER_SIZE <= n <= |buf|
    ensures buf == (buf[0..8] + buf[8..12] + buf[12..16] + buf[HEADER_SIZE..n]) + buf[n..]
  {}

  /** Decoding succeeds exactly on what starts with an encoded entry. */
  lemma DecodeIsExact(hash: Hash, buf: Bytes, offset: nat)
    ensures Decode(hash, buf, offset).Ok?
            <==> exists e: Entry, rest: Bytes :: Fits(e) && buf == Encode(hash, e.sequence, e.data) + rest
  {
    if Decode(hash, buf, offset).Ok? {
      DecodedIsEncoded(hash, buf, offset);
    }
    if e: Entry, rest: Bytes :| Fits(e) && buf == Encode(hash, e.sequence, e.data) + rest {
      DecodeInverts(hash, e, rest, offset);
    }
  }

  /** The bytes of an entry whose payload has been replaced by another of the same length. */
  function Damaged(hash: Hash, e: Entry, data: Bytes): Bytes {
    Encode(hash, e.sequence, e.data)[..HEADER_SIZE] + data
  }

  /** A damaged payload is reported, with both checksums, unless they happen to be equal. */
  lemma DamageIsReported(hash: Hash, e: Entry, data: Bytes, rest: Bytes, offset: nat)
    requires Fits(e) && |data| == |e.data| && hash(data) != hash(e.data)
    ensures Decode(hash, Damaged(hash, e, data) + rest, offset)
            == Err(ChecksumMismatch(offset, hash(e.data), hash(data)))
  {
    var buf := Damaged(hash, e, data) + rest;
    Le32(|e.data|);
    Le32(hash(e.data));
    assert buf[8..12] == ToLe(|e.data|, 4);
    assert buf[12..16] == ToLe(hash(e.data), 4);
    assert buf[HEADER_SIZE..HEADER_SIZE + |data|] == data;
  }

  /** The checksum covers the payload only: another number in the header is read as that number. */
  lemma NumberIsNotCovered(hash: Hash, e: Entry, sequence: nat, rest: Bytes, offset: nat)
    requires Fits(e) && sequence < U64
    ensures Decode(hash, ToLe(sequence, 8) + Encode(hash, e.sequence, e.data)[8..] + rest, offset)
            == Ok((Entry(sequence, e.data), HEADER_SIZE + |e.data|))
  {
    OtherNumber(hash, e, sequence);
    DecodeInverts(hash, Entry(sequence, e.data), rest, offset);
  }

  lemma OtherNumber(hash: Hash, e: Entry, sequence: nat)
    ensures ToLe(sequence, 8) + Encode(hash, e.sequence, e.data)[8..] == Encode(hash, sequence, e.data)
  {
    var tail := ToLe(|e.data|, 4) + ToLe(hash(e.data), 4) + e.data;
    assert Encode(hash, e.sequence, e.data) == ToLe(e.sequence, 8) + tail;
    assert Encode(hash, sequence, e.data) == ToLe(sequence, 8) + tail;
  }

  // ---- Segments ----

  /** A segment reads as these entries exactly if it is what writing them leaves. */
  lemma {:induction false} ParsedIsStream(hash: Hash, raw: Bytes, offset: nat)
    requires Parse(hash, raw, offset).Ok?
    ensures AllFit(Parse(hash, raw, offset).value) && raw == Stream(hash, Parse(hash, raw, offset).value)
    decreases |raw|
  {
    if raw != [] {
      DecodedIsEncoded(hash, raw, offset);
      var (e, n) := Decode(hash, raw, offset).value;
      ParsedIsStream(hash, raw[n..], offset + n);
      var tail := Parse(hash, raw[n..], offset + n).value;
      assert ([e] + tail)[1..] == tail;
    }
  }

  lemma SegmentIsExact(hash: Hash, raw: Bytes, entries: seq<Entry>)
    ensures Parse(hash, raw, 0) == Ok(entries) <==> AllFit(entries) && raw == Stream(hash, entries)
  {
    if Parse(hash, raw, 0) == Ok(entries) {
      ParsedIsStream(hash, raw, 0);
    }
    if AllFit(entries) && raw == Stream(hash, entries) {
      ParseInverts(hash, entries);
    }
  }

  lemma Regroup(a: Bytes, b: Bytes, c: Bytes)
    ensures (a + b) + c == a + (b + c)
  {}

  /** An error behind intact entries is the error of the segment. */
  lemma {:induction false} ErrorComesThrough(hash: Hash, before: seq<Entry>, bad: Bytes, offset: nat)
    requires AllFit(before) && Parse(hash, bad, offset + |Stream(hash, before)|).Err?
    ensures Parse(hash, Stream(hash, before) + bad, offset) == Parse(hash, bad, offset + |Stream(hash, before)|)
  {
    if before == [] {
      assert [] + bad == bad;
    } else {
      var f, tail := before[0], Stream(hash, before[1..]);
      ErrorComesThrough(hash, before[1..], bad, offset + HEADER_SIZE + |f.data|);
      ParseOne(hash, f, tail + bad, offset);
      Regroup(Encode(hash, f.sequence, f.data), tail, bad);
    }
  }

  /** So a segment whose payload of one entry has been damaged reads as that error, at that entry. */
  lemma DamagedSegment(hash: Hash, before: seq<Entry>, e: Entry, data: Bytes, rest: Bytes, offset: nat)
    requires AllFit(before) && Fits(e) && |data| == |e.data| && hash(data) != hash(e.data)
    ensures Parse(hash, Stream(hash, before) + (Damaged(hash, e, data) + rest), offset)
            == Err(ChecksumMismatch(offset + |Stream(hash, before)|, hash(e.data), hash(data)))
  {
    DamageIsReported(hash, e, data, rest, offset + |Stream(hash, before)|);
    ErrorComesThrough(hash, before, Damaged(hash, e, data) + rest, offset);
  }

  // ---- Snapshot payloads ----

  lemma FieldsAndRest(buf: Bytes, n: nat)
    requires 20 <= n <= |buf|
    ensures buf == (buf[0..8] + buf[8..16] + buf[16..20] + buf[20..n]) + buf[n..]
  {}

  /** The bytes of one entry, from its fields. */
  lemma EntryIsEncoded(rest: Bytes, n: nat)
    requires 20 <= n <= |rest| && n == 20 + FromLe(rest[16..20])
    ensures var e := LogEntry(FromLe(rest[8..16]), FromLe(rest[0..8]), rest[20..n]);
            SnapshotCodec.EntryFits(e) && rest == SnapshotCodec.EntryBytes(e) + rest[n..]
  {
    Le64Onto(rest[0..8]);
    Le64Onto(rest[8..16]);
    Le32Onto(rest[16..20]);
    FieldsAndRest(rest, n);
  }

  lemma {:induction false} BodyIsEncoded(rest: Bytes, count: nat)
    requires SnapshotCodec.DecodeBody(rest, count).Some?
    ensures var entries := SnapshotCodec.DecodeBody(rest, count).value;
            && |entries| == count && (forall e :: e in entries ==> SnapshotCodec.EntryFits(e))
            && SnapshotCodec.BodyBytes(entries) <= rest
    decreases count
  {
    if count > 0 {
      var n := 20 + FromLe(rest[16..20]);
      var e := LogEntry(FromLe(rest[8..16]), FromLe(rest[0..8]), rest[20..n]);
      EntryIsEncoded(rest, n);
      BodyIsEncoded(rest[n..], count - 1);
      BodyGrows(e, SnapshotCodec.DecodeBody(rest[n..], count - 1).value, rest, rest[n..]);
    }
  }

  lemma BodyGrows(e: LogEntry, tail: seq<LogEntry>, rest: Bytes, more: Bytes)
    requires rest == SnapshotCodec.EntryBytes(e) + more && SnapshotCodec.BodyBytes(tail) <= more
    ensures SnapshotCodec.BodyBytes([e] + tail) <= rest
  {
    assert ([e] + tail)[1..] == tail;
  }

  /** A payload of at least a count decodes to these entries exactly if it starts with their encoding; a shorter one
      decodes to none. */
  lemma PayloadIsExact(data: Bytes, entries: seq<LogEntry>)
    ensures SnapshotCodec.Decoded(data) == Some(entries)
            <==> if |data| < 4 then entries == []
                 else SnapshotCodec.Fits(entries) && SnapshotCodec.EntriesBytes(entries) <= data
  {
    if |data| >= 4 {
      if SnapshotCodec.Decoded(data) == Some(entries) {
        Le32Onto(data[..4]);
        BodyIsEncoded(data[4..], FromLe(data[..4]));
        assert data == data[..4] + data[4..];
      }
      if SnapshotCodec.Fits(entries) && SnapshotCodec.EntriesBytes(entries) <= data {
        var n := |SnapshotCodec.EntriesBytes(entries)|;
        assert data == SnapshotCodec.EntriesBytes(entries) + data[n..];
        SnapshotCodec.RoundTrip(entries, data[n..]);
      }
    }
  }

  /** A file loads as this snapshot exactly if it starts with its bytes. */
  lemma SnapshotFileIsExact(buf: Bytes, s: NodeModel.Snapshot)
    ensures Snapshots.Parse(buf) == Snapshots.Found(s) <==> Snapshots.Storable(s) && Snapshots.FileBytes(s) <= buf
  {
    if Snapshots.Parse(buf) == Snapshots.Found(s) {
      LoadedIsEncoded(buf, s);
    }
    if Snapshots.Storable(s) && Snapshots.FileBytes(s) <= buf {
      var whole := Snapshots.FileBytes(s);
      Snapshots.FileFields(s);
      assert buf[0..8] == whole[0..8] && buf[8..16] == whole[8..16] && buf[16..20] == whole[16..20];
      assert buf[20..20 + |s.data|] == whole[20..20 + |s.data|];
    }
  }

  lemma LoadedIsEncoded(buf: Bytes, s: NodeModel.Snapshot)
    requires Snapshots.Parse(buf) == Snapshots.Found(s)
    ensures Snapshots.Storable(s) && Snapshots.FileBytes(s) <= buf
  {
    Le64Onto(buf[0..8]);
    Le64Onto(buf[8..16]);
    Le32Onto(buf[16..20]);
    FieldsAndRest(buf, 20 + |s.data|);
  }

  // ---- The state file ----

  /** A state file cut short keeps its term from 12 bytes on, and its vote only when it is whole. */
  lemma StateFileCut(term: nat, votedFor: Option<seq<byte>>, cut: nat)
    requires term < U64 && (votedFor.Some? ==> 0 < |votedFor.value| < U32)
    requires cut <= |PersistentState.Encode(term, votedFor)|
    ensures PersistentState.Decode(PersistentState.Encode(term, votedFor)[..cut])
            == if cut < 12 then (0, None)
               else (term, if cut == |PersistentState.Encode(term, votedFor)| then votedFor else None)
  {
    var s := if votedFor.Some? then votedFor.value else [];
    var whole := PersistentState.Encode(term, votedFor);
    Le64(term);
    Le32(|s|);
    if cut >= 12 {
      assert whole[0..8] == ToLe(term, 8) && whole[8..12] == ToLe(|s|, 4);
      assert whole[..cut][0..8] == whole[0..8] && whole[..cut][8..12] == whole[8..12];
      if cut == |whole| {
        assert whole[..cut][12..12 + |s|] == s;
      }
    }
  }

  /** A node that has no state file is in term 0 and has not voted. */
  lemma NoStateFile()
    ensures PersistentState.Loaded(None) == (0, None)
  {}

  // ---- Records of the replicated log ----

  /** Every payload is an encoded record, possibly with bytes behind it if it is a truncation or a marker, or it is
      passed over by the replay. */
  lemma {:induction false} RecordIsEncoded(payload: Bytes)
    ensures match Recovery.Decode(payload)
            case AppendRecord(e) => e.index < U64 && e.term < U64 && payload == Recovery.EncodeAppend(e)
            case TruncateRecord(from) => from < U64 && Recovery.EncodeTruncate(from) <= payload
            case SnapshotRecord(index, term) =>
              index < U64 && term < U64 && Recovery.EncodeSnapshot(index, term) <= payload
            case Skipped => true
  {
    if |payload| >= 9 {
      Le64Onto(payload[1..9]);
      assert payload == [payload[0]] + payload[1..9] + payload[9..];
    }
    if |payload| >= 17 {
      Le64Onto(payload[9..17]);
      assert payload == [payload[0]] + payload[1..9] + payload[9..17] + payload[17..];
    }
  }

  /** Bytes behind a truncation or a marker do not matter. */
  lemma TrailingBytesAreIgnored(from: nat, index: nat, term: nat, junk: Bytes)
    requires from < U64 && index < U64 && term < U64
    ensures Recovery.Decode(Recovery.EncodeTruncate(from) + junk) == Recovery.TruncateRecord(from)
    ensures Recovery.Decode(Recovery.EncodeSnapshot(index, term) + junk) == Recovery.SnapshotRecord(index, term)
  {
    Recovery.TruncateDecodes(from);
    Recovery.SnapshotDecodes(index, term);
    SamePrefix(Recovery.EncodeTruncate(from), junk);
    SamePrefix(Recovery.EncodeSnapshot(index, term), junk);
  }

  lemma SamePrefix(a: Bytes, b: Bytes)
    ensures |a| >= 9 ==> (a + b)[0] == a[0] && (a + b)[1..9] == a[1..9]
    ensures |a| >= 17 ==> (a + b)[9..17] == a[9..17]
  {}

  // ---- The bytes themselves ----

  /** The documented layouts, on small examples. */
  lemma EntryLayout(hash: Hash)
    ensures Encode(hash, 258, [7]) == [2, 1, 0, 0, 0, 0, 0, 0] + [1, 0, 0, 0] + ToLe(hash([7]), 4) + [7]
  {
    Le8(258, 2, 1);
    Le4(1);
  }

  lemma SnapshotLayout()
    ensures SnapshotCodec.EntriesBytes([LogEntry(3, 258, [7])])
            == [1, 0, 0, 0] + ([2, 1, 0, 0, 0, 0, 0, 0] + [3, 0, 0, 0, 0, 0, 0, 0] + [1, 0, 0, 0] + [7])
  {
    Le8(258, 2, 1);
    Le8(3, 3, 0);
    Le4(1);
    var e := LogEntry(3, 258, [7]);
    assert SnapshotCodec.BodyBytes([e]) == SnapshotCodec.EntryBytes(e) + SnapshotCodec.BodyBytes([e][1..]);
  }

  lemma SnapshotFileLayout()
    ensures Snapshots.FileBytes(NodeModel.Snapshot(258, 3, [7]))
            == [2, 1, 0, 0, 0, 0, 0, 0] + [3, 0, 0, 0, 0, 0, 0, 0] + [1, 0, 0, 0] + [7]
  {
    Le8(258, 2, 1);
    Le8(3, 3, 0);
    Le4(1);
  }

  lemma StateLayout()
    ensures PersistentState.Encode(258, Some([7])) == [2, 1, 0, 0, 0, 0, 0, 0] + [1, 0, 0, 0] + [7]
  {
    Le8(258, 2, 1);
    Le4(1);
  }

  lemma RecordLayouts()
    ensures Recovery.EncodeAppend(LogEntry(3, 258, [7]))
            == [1] + [2, 1, 0, 0, 0, 0, 0, 0] + [3, 0, 0, 0, 0, 0, 0, 0] + [7]
    ensures Recovery.EncodeTruncate(258) == [2] + [2, 1, 0, 0, 0, 0, 0, 0]
    ensures Recovery.EncodeSnapshot(258, 3) == [3] + [2, 1, 0, 0, 0, 0, 0, 0] + [3, 0, 0, 0, 0, 0, 0, 0]
  {
    Le8(258, 2, 1);
    Le8(3, 3, 0);
  }

  lemma Le8(n: nat, low: byte, high: byte)
    requires n == low + 256 * high
    ensures ToLe(n, 8) == [low, high, 0, 0, 0, 0, 0, 0]
  {
    Zeros(6);
    assert n % 256 == low && n / 256 == high && high % 256 == high && high / 256 == 0;
    assert ToLe(n, 8) == [low] + ([high] + ToLe(0, 6));
  }

  lemma Le4(n: byte)
    ensures ToLe(n, 4) == [n, 0, 0, 0]
  {
    Zeros(3);
    assert ToLe(n, 4) == [n] + ToLe(0, 3);
  }

  lemma {:induction false} Zeros(width: nat)
    ensures ToLe(0, width) == seq(width, i => 0)
  {
    if width > 0 {
      Zeros(width - 1);
    }
  }
}
