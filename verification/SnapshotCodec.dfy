/** The payload of a snapshot: the committed entries, as written by `encode_entries`. */
module SnapshotCodec {
  import opened Bytes
  import opened Log

  const ENTRY_HEADER: nat := 20

  /** Sizes the `as u32` casts of the encoder preserve. */
  predicate EntryFits(e: LogEntry) {
    e.index < U64 && e.term < U64 && |e.data| < U32
  }

  predicate Fits(entries: seq<LogEntry>) {
    |entries| < U32 && forall e :: e in entries ==> EntryFits(e)
  }

  function EntryBytes(e: LogEntry): (bs: Bytes)
    ensures |bs| == ENTRY_HEADER + |e.data|
  {
    ToLe(e.index, 8) + ToLe(e.term, 8) + ToLe(|e.data|, 4) + e.data
  }

  function BodyBytes(entries: seq<LogEntry>): Bytes {
    if entries == [] then [] else EntryBytes(entries[0]) + BodyBytes(entries[1..])
  }

  function EntriesBytes(entries: seq<LogEntry>): Bytes {
    ToLe(|entries|, 4) + BodyBytes(entries)
  }

  method EncodeEntries(entries: seq<LogEntry>) returns (buf: Bytes)
    ensures buf == EntriesBytes(entries)
  {
    buf := ToLe(|entries|, 4);
    for i := 0 to |entries|
      invariant buf + BodyBytes(entries[i..]) == EntriesBytes(entries)
    {
      var e := entries[i];
      assert entries[i..][1..] == entries[i + 1..];
      buf := buf + ToLe(e.index, 8);
      buf := buf + ToLe(e.term, 8);
      buf := buf + ToLe(|e.data|, 4);
      buf := buf + e.data;
    }
  }

  /** What `count` entries at the start of `rest` decode to. */
  function DecodeBody(rest: Bytes, count: nat): Option<seq<LogEntry>> {
    if count == 0 then Some([])
    else if |rest| < ENTRY_HEADER then None
    else
      var len := FromLe(rest[16..20]);
      if |rest| < ENTRY_HEADER + len then None
      else
        var e := LogEntry(FromLe(rest[8..16]), FromLe(rest[0..8]), rest[20..20 + len]);
        match DecodeBody(rest[20 + len..], count - 1)
        case None => None
        case Some(tail) => Some([e] + tail)
  }

  function Decoded(data: Bytes): Option<seq<LogEntry>> {
    if |data| < 4 then Some([]) else DecodeBody(data[4..], FromLe(data[..4]))
  }

  /** Prepends what was read before to what the rest decodes to. */
  function Prepend(entries: seq<LogEntry>, tail: Option<seq<LogEntry>>): Option<seq<LogEntry>> {
    match tail
    case None => None
    case Some(es) => Some(entries + es)
  }

  lemma PrependNothing(tail: Option<seq<LogEntry>>)
    ensures Prepend([], tail) == tail
  {
    assert tail.Some? ==> [] + tail.value == tail.value;
  }

  lemma PrependTwice(a: seq<LogEntry>, b: seq<LogEntry>, tail: Option<seq<LogEntry>>)
    ensures Prepend(a, Prepend(b, tail)) == Prepend(a + b, tail)
  {
    assert tail.Some? ==> a + (b + tail.value) == (a + b) + tail.value;
  }

  /** The length field of the entry that starts at `pos`. */
  function LengthAt(data: Bytes, pos: nat): nat
    requires pos + 20 <= |data|
  {
    FromLe(data[pos + 16..pos + 20])
  }

  function EntryAt(data: Bytes, pos: nat): LogEntry
    requires pos + 20 <= |data| && pos + 20 + LengthAt(data, pos) <= |data|
  {
    LogEntry(FromLe(data[pos + 8..pos + 16]), FromLe(data[pos..pos + 8]),
             data[pos + 20..pos + 20 + LengthAt(data, pos)])
  }

  /** One turn of the decoding loop, seen from the bytes still ahead. */
  lemma DecodeTurn(data: Bytes, pos: nat, count: nat)
    requires pos <= |data| && count > 0
    ensures pos + 20 > |data| ==> DecodeBody(data[pos..], count) == None
    ensures pos + 20 <= |data| && pos + 20 + LengthAt(data, pos) > |data| ==> DecodeBody(data[pos..], count) == None
    ensures pos + 20 <= |data| && pos + 20 + LengthAt(data, pos) <= |data| ==>
              DecodeBody(data[pos..], count)
              == Prepend([EntryAt(data, pos)], DecodeBody(data[pos + 20 + LengthAt(data, pos)..], count - 1))
  {
    var rest := data[pos..];
    if pos + 20 <= |data| {
      var len := LengthAt(data, pos);
      assert rest[16..20] == data[pos + 16..pos + 20];
      if pos + 20 + len <= |data| {
        assert rest[0..8] == data[pos..pos + 8];
        assert rest[8..16] == data[pos + 8..pos + 16];
        assert rest[20..20 + len] == data[pos + 20..pos + 20 + len];
        assert rest[20 + len..] == data[pos + 20 + len..];
      }
    }
  }

  method DecodeEntries(data: Bytes) returns (r: Option<seq<LogEntry>>)
    ensures r == Decoded(data)
  {
    if |data| < 4 {
      return Some([]);
    }
    var count := FromLe(data[..4]);
    var entries := [];
    var pos := 4;
    PrependNothing(DecodeBody(data[4..], count));
    for k := 0 to count
      invariant 4 <= pos <= |data|
      invariant Decoded(data) == Prepend(entries, DecodeBody(data[pos..], count - k))
    {
      DecodeTurn(data, pos, count - k);
      if pos + 20 > |data| {
        return None;
      }
      var index := FromLe(data[pos..pos + 8]);
      var term := FromLe(data[pos + 8..pos + 16]);
      var len := FromLe(data[pos + 16..pos + 20]);
      pos := pos + 20;
      if pos + len > |data| {
        return None;
      }
      var e := LogEntry(term, index, data[pos..pos + len]);
      pos := pos + len;
      PrependTwice(entries, [e], DecodeBody(data[pos..], count - k - 1));
      entries := entries + [e];
    }
    assert entries + [] == entries;
    r := Some(entries);
  }

  /** The fields of an encoded entry are found where the decoder looks for them. */
  lemma EntryFields(e: LogEntry, junk: Bytes)
    requires EntryFits(e)
    ensures var bs := EntryBytes(e) + junk;
            && FromLe(bs[0..8]) == e.index
            && FromLe(bs[8..16]) == e.term
            && FromLe(bs[16..20]) == |e.data|
            && bs[20..20 + |e.data|] == e.data
            && bs[20 + |e.data|..] == junk
  {
    var bs := EntryBytes(e) + junk;
    Le64(e.index);
    Le64(e.term);
    Le32(|e.data|);
    assert bs[0..8] == ToLe(e.index, 8);
    assert bs[8..16] == ToLe(e.term, 8);
    assert bs[16..20] == ToLe(|e.data|, 4);
  }

  lemma {:induction false} BodyRoundTrip(entries: seq<LogEntry>, junk: Bytes)
    requires forall e :: e in entries ==> EntryFits(e)
    ensures DecodeBody(BodyBytes(entries) + junk, |entries|) == Some(entries)
  {
    if entries != [] {
      var rest := BodyBytes(entries[1..]) + junk;
      assert BodyBytes(entries) + junk == EntryBytes(entries[0]) + rest;
      EntryFields(entries[0], rest);
      BodyRoundTrip(entries[1..], junk);
      assert [entries[0]] + entries[1..] == entries;
    }
  }

  /** Decoding inverts encoding, whatever bytes follow. */
  lemma RoundTrip(entries: seq<LogEntry>, junk: Bytes)
    requires Fits(entries)
    ensures Decoded(EntriesBytes(entries) + junk) == Some(entries)
  {
    var data := EntriesBytes(entries) + junk;
    Le32(|entries|);
    assert data[..4] == ToLe(|entries|, 4);
    assert data[4..] == BodyBytes(entries) + junk;
    BodyRoundTrip(entries, junk);
  }

  lemma {:induction false} BodyCut(entries: seq<LogEntry>, cut: nat)
    requires forall e :: e in entries ==> EntryFits(e)
    requires cut < |BodyBytes(entries)|
    ensures DecodeBody(BodyBytes(entries)[..cut], |entries|) == None
  {
    var e := entries[0];
    var rest := BodyBytes(entries[1..]);
    var whole := BodyBytes(entries);
    var part := whole[..cut];
    EntryFields(e, rest);
    if cut >= ENTRY_HEADER {
      assert part[16..20] == whole[16..20];
      if cut >= ENTRY_HEADER + |e.data| {
        assert part[20 + |e.data|..] == rest[..cut - 20 - |e.data|];
        BodyCut(entries[1..], cut - 20 - |e.data|);
      }
    }
  }

  /** A payload cut short anywhere after its count is rejected, never misread. */
  lemma ProperPrefixIsRejected(entries: seq<LogEntry>, cut: nat)
    requires Fits(entries)
    requires 4 <= cut < |EntriesBytes(entries)|
    ensures Decoded(EntriesBytes(entries)[..cut]) == None
  {
    var whole := EntriesBytes(entries);
    Le32(|entries|);
    assert whole[..cut][..4] == ToLe(|entries|, 4);
    assert whole[..cut][4..] == BodyBytes(entries)[..cut - 4];
    BodyCut(entries, cut - 4);
  }

  /** So two lists never share an encoding, nor is one encoding the start of another. */
  lemma PrefixFree(a: seq<LogEntry>, b: seq<LogEntry>)
    requires Fits(a) && Fits(b)
    requires EntriesBytes(a) <= EntriesBytes(b)
    ensures a == b
  {
    RoundTrip(a, EntriesBytes(b)[|EntriesBytes(a)|..]);
    RoundTrip(b, []);
    assert EntriesBytes(a) + EntriesBytes(b)[|EntriesBytes(a)|..] == EntriesBytes(b) + [];
  }
}
