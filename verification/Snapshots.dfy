/** Snapshots: the file that holds one, and what taking one keeps. */
module Snapshots {
  import opened Bytes
  import opened Log
  import opened SnapshotCodec
  import opened NodeModel

  datatype LoadError = TooShort | Truncated
  datatype Loaded = Found(snapshot: Snapshot) | Missing | Invalid(error: LoadError)

  const FILE_HEADER: nat := 20

  function FileBytes(s: Snapshot): Bytes {
    ToLe(s.lastIndex, 8) + ToLe(s.lastTerm, 8) + ToLe(|s.data|, 4) + s.data
  }

  function Parse(buf: Bytes): Loaded {
    if |buf| < FILE_HEADER then Invalid(TooShort)
    else
      var len := FromLe(buf[16..20]);
      if |buf| < FILE_HEADER + len then Invalid(Truncated)
      else Found(Snapshot(FromLe(buf[0..8]), FromLe(buf[8..16]), buf[20..20 + len]))
  }

  predicate Storable(s: Snapshot) {
    s.lastIndex < U64 && s.lastTerm < U64 && |s.data| < U32
  }

  lemma FileFields(s: Snapshot)
    requires Storable(s)
    ensures var buf := FileBytes(s);
            && FromLe(buf[0..8]) == s.lastIndex && FromLe(buf[8..16]) == s.lastTerm
            && FromLe(buf[16..20]) == |s.data| && buf[20..20 + |s.data|] == s.data
  {
    var a, b, c, d := ToLe(s.lastIndex, 8), ToLe(s.lastTerm, 8), ToLe(|s.data|, 4), s.data;
    Le64(s.lastIndex);
    Le64(s.lastTerm);
    Le32(|s.data|);
    assert (a + b + c + d)[0..8] == a;
    assert (a + b + c + d)[8..16] == b;
    assert (a + b + c + d)[16..20] == c;
  }

  /** A saved snapshot loads back; a file cut short anywhere is recognised. */
  lemma FileRoundTrip(s: Snapshot, cut: nat)
    requires Storable(s) && cut <= |FileBytes(s)|
    ensures Parse(FileBytes(s)[..cut])
            == if cut == |FileBytes(s)| then Found(s) else Invalid(if cut < FILE_HEADER then TooShort else Truncated)
  {
    var whole := FileBytes(s);
    if cut >= FILE_HEADER {
      FileFields(s);
      assert whole[..cut][0..8] == whole[0..8];
      assert whole[..cut][8..16] == whole[8..16];
      assert whole[..cut][16..20] == whole[16..20];
      assert whole[..|whole|] == whole;
    }
  }

  class SnapshotFile {
    var contents: Option<Bytes>

    constructor ()
      ensures contents == None
    {
      contents := None;
    }

    /** Written beside the old file and renamed over it, so never partly there. */
    method Save(s: Snapshot)
      modifies this
      ensures contents == Some(FileBytes(s))
    {
      var buf := ToLe(s.lastIndex, 8);
      buf := buf + ToLe(s.lastTerm, 8);
      buf := buf + ToLe(|s.data|, 4);
      buf := buf + s.data;
      contents := Some(buf);
    }

    method Load() returns (r: Loaded)
      ensures contents == None ==> r == Missing
      ensures contents.Some? ==> r == Parse(contents.value)
      ensures forall s :: Storable(s) && contents == Some(FileBytes(s)) ==> r == Found(s)
    {
      if contents == None {
        return Missing;
      }
      forall s | Storable(s) && contents == Some(FileBytes(s))
        ensures Parse(contents.value) == Found(s)
      {
        FileRoundTrip(s, |FileBytes(s)|);
        assert FileBytes(s)[..|FileBytes(s)|] == FileBytes(s);
      }
      r := Parse(contents.value);
    }
  }

  // ---- Taking one ----

  /** Snapshot conservation: the entries in the snapshot followed by those still in memory are the entries that were in
      memory, and the snapshot is labelled with its last entry. */
  lemma SnapshotConserves(s: NodeState)
    requires s.log.Valid() && s.log.snapshotIndex < s.commitIndex <= s.log.LastIndex()
    requires Fits(s.log.entries)
    ensures var t := TakeSnapshot(s, true);
            var cut := s.commitIndex - s.log.snapshotIndex;
            && t.snapshot.Some?
            && Decoded(t.snapshot.value.data) == Some(s.log.entries[..cut])
            && t.log.entries == s.log.entries[cut..]
            && t.snapshot.value.lastIndex == t.log.snapshotIndex == s.log.entries[cut - 1].index
            && t.snapshot.value.lastTerm == t.log.snapshotTerm == s.log.entries[cut - 1].term
            && t.log.LastIndex() == s.log.LastIndex()
  {
    var cut := s.commitIndex - s.log.snapshotIndex;
    var committed := UpTo(s.log.entries, s.commitIndex);
    FiltersAreSlices(s.log.entries, s.log.snapshotIndex, s.commitIndex);
    assert s.log.EntriesFrom(s.log.snapshotIndex + 1) == s.log.entries;
    assert committed == s.log.entries[..cut];
    RoundTrip(committed, []);
    assert EntriesBytes(committed) + [] == EntriesBytes(committed);
  }

  lemma SnapshotCovers(s: NodeState)
    requires s.log.Valid() && s.log.snapshotIndex < s.commitIndex <= s.log.LastIndex() && Fits(s.log.entries)
    ensures TakeSnapshot(s, true).snapshot.Some?
    ensures var p := TakeSnapshot(s, true).snapshot.value;
            && p.lastIndex == s.commitIndex && Decoded(p.data).Some?
            && forall e :: e in Decoded(p.data).value ==> s.log.snapshotIndex < e.index <= p.lastIndex
  {
    SnapshotConserves(s);
  }

  /** A snapshot holds only what came after the previous one: two successive snapshots share no entry, and no single
      one of them holds the whole history. */
  lemma TwoSnapshots(s: NodeState, t: NodeState)
    requires s.log.Valid() && s.log.snapshotIndex < s.commitIndex <= s.log.LastIndex() && Fits(s.log.entries)
    requires t.log.Valid() && t.log.snapshotIndex == s.commitIndex < t.commitIndex <= t.log.LastIndex()
        && Fits(t.log.entries)
    ensures var (p, q) := (TakeSnapshot(s, true).snapshot.value, TakeSnapshot(t, true).snapshot.value);
            && Decoded(p.data).Some? && Decoded(q.data).Some?
            && (forall e :: e in Decoded(p.data).value ==> s.log.snapshotIndex < e.index <= p.lastIndex)
            && (forall e :: e in Decoded(q.data).value ==> p.lastIndex < e.index <= q.lastIndex)
  {
    SnapshotCovers(s);
    SnapshotCovers(t);
  }
}
