/** A log one of whose entries has been damaged on disk: reading it reports the damage, and opening it does so unless
    later segments hold entries. */
module Damage {
  import opened Bytes
  import opened EntryCodec
  import opened Canonical
  import opened SegmentedLog
  import opened WalStore

  /** The i-th segment holds `before`, `e` and `after`, and the payload of `e` was replaced by `data`. */
  ghost predicate DamagedAt(files: seq<Chunk>, i: nat, before: seq<Entry>, e: Entry, after: seq<Entry>, hash: Hash,
      data: Bytes) {
    && i < |files| && files[i].entries == (before + [e]) + after
    && |data| == |e.data| && hash(data) != hash(e.data)
  }

  function DamagedBytes(hash: Hash, before: seq<Entry>, e: Entry, after: seq<Entry>, data: Bytes): Bytes {
    Stream(hash, before) + (Damaged(hash, e, data) + Stream(hash, after))
  }

  /** The error names the place of the entry in its segment and both checksums. */
  function Mismatch(hash: Hash, before: seq<Entry>, e: Entry, data: Bytes): WalError {
    ChecksumMismatch(SizeOf(before), hash(e.data), hash(data))
  }

  /** The j-th segment reads as what it holds, or as this error if it is the i-th. */
  ghost predicate ReadsAt(hash: Hash, segments: map<nat, Bytes>, files: seq<Chunk>, i: nat, error: WalError, j: nat)
    requires j < |files|
  {
    && files[j].id in segments
    && Parse(hash, segments[files[j].id], 0) == if j == i then Err(error) else Ok(files[j].entries)
  }

  /** All segments but the i-th read as what they hold; the i-th reads as this error. */
  ghost predicate OneBad(hash: Hash, segments: map<nat, Bytes>, files: seq<Chunk>, i: nat, error: WalError) {
    && i < |files|
    && forall j {:trigger ReadsAt(hash, segments, files, i, error, j)} :: 0 <= j < |files| ==>
         ReadsAt(hash, segments, files, i, error, j)
  }

  lemma AllThere(hash: Hash, segments: map<nat, Bytes>, files: seq<Chunk>, i: nat, error: WalError, n: nat)
    requires OneBad(hash, segments, files, i, error) && n <= |files|
    ensures forall id :: id in IdsOf(files[..n]) ==> id in segments
    ensures forall id :: id in IdsOf(files) ==> id in segments
  {
    forall id | id in IdsOf(files)
      ensures id in segments
    {
      var j :| 0 <= j < |files| && IdsOf(files)[j] == id;
      assert ReadsAt(hash, segments, files, i, error, j);
    }
    forall id | id in IdsOf(files[..n])
      ensures id in IdsOf(files)
    {
      var j :| 0 <= j < n && IdsOf(files[..n])[j] == id;
      assert IdsOf(files)[j] == id;
    }
  }

  lemma IntactReads(hash: Hash, s: WalState, j: nat)
    requires s.WellFormed() && j < |s.Files()|
    ensures var c := s.Files()[j];
            && c.id in Image(hash, s.Files()) && Parse(hash, Image(hash, s.Files())[c.id], 0) == Ok(c.entries)
            && AllFit(c.entries)
  {
    FlatSnoc(s.sealed, s.active);
    ImageAt(hash, s.Files(), j);
    FitsEach(s.Files(), j);
    ParseInverts(hash, s.Files()[j].entries);
  }

  lemma DamagedReads(hash: Hash, files: seq<Chunk>, i: nat, before: seq<Entry>, e: Entry, after: seq<Entry>,
      data: Bytes)
    requires DamagedAt(files, i, before, e, after, hash, data) && AllFit(files[i].entries)
    ensures Parse(hash, DamagedBytes(hash, before, e, after, data), 0) == Err(Mismatch(hash, before, e, data))
  {
    assert forall x :: x in before ==> x in files[i].entries;
    assert files[i].entries[|before|] == e;
    DamagedSegment(hash, before, e, data, Stream(hash, after), 0);
    SizeIsLength(hash, before);
  }

  /** The directory of the log with the damaged segment. */
  function DamagedImage(hash: Hash, s: WalState, i: nat, before: seq<Entry>, e: Entry, after: seq<Entry>, data: Bytes):
      map<nat, Bytes>
    requires i < |s.Files()|
  {
    Image(hash, s.Files())[s.Files()[i].id := DamagedBytes(hash, before, e, after, data)]
  }

  lemma OneIsBad(hash: Hash, s: WalState, i: nat, before: seq<Entry>, e: Entry, after: seq<Entry>, data: Bytes)
    requires s.WellFormed() && DamagedAt(s.Files(), i, before, e, after, hash, data)
    ensures OneBad(hash, DamagedImage(hash, s, i, before, e, after, data), s.Files(), i,
                   Mismatch(hash, before, e, data))
  {
    var files, bad := s.Files(), DamagedImage(hash, s, i, before, e, after, data);
    IntactReads(hash, s, i);
    DamagedReads(hash, files, i, before, e, after, data);
    forall j | 0 <= j < |files|
      ensures ReadsAt(hash, bad, files, i, Mismatch(hash, before, e, data), j)
    {
      IntactReads(hash, s, j);
      assert j != i ==> files[j].id != files[i].id;
    }
  }

  // ---- Reading ----

  lemma BadReads(hash: Hash, segments: map<nat, Bytes>, files: seq<Chunk>, i: nat, error: WalError, from: nat)
    requires OneBad(hash, segments, files, i, error)
    ensures forall id :: id in IdsOf(files) ==> id in segments
    ensures ReadAll(hash, segments, IdsOf(files), from) == Err(error)
  {
    var ids := IdsOf(files);
    AllThere(hash, segments, files, i, error, i);
    assert ReadsAt(hash, segments, files, i, error, i);
    forall j | 0 <= j < i
      ensures files[j].id in segments && Parse(hash, segments[files[j].id], 0) == Ok(files[j].entries)
    {
      assert ReadsAt(hash, segments, files, i, error, j);
    }
    ReadsChunks(hash, segments, files[..i], from);
    assert ids[..i + 1][..i] == IdsOf(files[..i]);
    ReadAllStops(hash, segments, ids, i, from);
  }

  /** Reading a log with one damaged entry is that error, from wherever it is read. */
  lemma DamagedLogReads(hash: Hash, s: WalState, i: nat, before: seq<Entry>, e: Entry, after: seq<Entry>, data: Bytes,
      from: nat)
    requires s.WellFormed() && DamagedAt(s.Files(), i, before, e, after, hash, data)
    ensures var bad := DamagedImage(hash, s, i, before, e, after, data);
            && (forall id :: id in IdsOf(s.Files()) ==> id in bad)
            && ReadAll(hash, bad, IdsOf(s.Files()), from) == Err(Mismatch(hash, before, e, data))
  {
    OneIsBad(hash, s, i, before, e, after, data);
    BadReads(hash, DamagedImage(hash, s, i, before, e, after, data), s.Files(), i, Mismatch(hash, before, e, data),
             from);
  }

  // ---- Opening ----

  /** The number of the last entry in the segments from the i-th on, or the error in front of them. */
  function LastOr(later: seq<Entry>, error: WalError): Result<Option<nat>> {
    if later == [] then Err(error) else Ok(Some(later[|later| - 1].sequence))
  }

  lemma {:induction false} LaterSnoc(files: seq<Chunk>, i: nat, n: nat, error: WalError)
    requires i < n < |files|
    ensures var c := files[n].entries;
            LastOr(Flat(files[i + 1..n + 1]), error)
            == if c != [] then Ok(Some(c[|c| - 1].sequence)) else LastOr(Flat(files[i + 1..n]), error)
  {
    assert files[i + 1..n + 1] == files[i + 1..n] + [files[n]];
    FlatSnoc(files[i + 1..n], files[n]);
  }

  lemma {:induction false} IdsSnocAt(files: seq<Chunk>, n: nat)
    requires n < |files|
    ensures IdsOf(files[..n + 1]) == IdsOf(files[..n]) + [files[n].id]
  {}

  lemma {:induction false} BadHighest(hash: Hash, segments: map<nat, Bytes>, files: seq<Chunk>, i: nat,
      error: WalError, n: nat)
    requires OneBad(hash, segments, files, i, error) && i < n <= |files|
    ensures forall id :: id in IdsOf(files[..n]) ==> id in segments
    ensures Highest(hash, segments, IdsOf(files[..n])) == LastOr(Flat(files[i + 1..n]), error)
    decreases n
  {
    var c := files[n - 1];
    AllThere(hash, segments, files, i, error, n);
    AllThere(hash, segments, files, i, error, n - 1);
    assert ReadsAt(hash, segments, files, i, error, n - 1);
    HighestStep(hash, segments, IdsOf(files[..n - 1]), c.id);
    IdsSnocAt(files, n - 1);
    if n - 1 > i {
      BadHighest(hash, segments, files, i, error, n - 1);
      LaterSnoc(files, i, n - 1, error);
    }
  }

  lemma BadIds(hash: Hash, s: WalState, i: nat, before: seq<Entry>, e: Entry, after: seq<Entry>, data: Bytes)
    requires s.WellFormed() && i < |s.Files()|
    ensures Sorted(DamagedImage(hash, s, i, before, e, after, data).Keys) == IdsOf(s.Files())
  {
    SortedIsIds(hash, s.Files());
    IntactReads(hash, s, i);
    assert DamagedImage(hash, s, i, before, e, after, data).Keys == Image(hash, s.Files()).Keys;
  }

  /** Opening such a log fails with that error exactly if no later segment holds an entry; otherwise the numbering
      resumes as if nothing had happened, and the damage shows only when the log is read. */
  lemma DamagedLogOpens(hash: Hash, s: WalState, i: nat, before: seq<Entry>, e: Entry, after: seq<Entry>, data: Bytes)
    requires s.WellFormed() && DamagedAt(s.Files(), i, before, e, after, hash, data)
    ensures Resumption(hash, DamagedImage(hash, s, i, before, e, after, data))
            == if Flat(s.Files()[i + 1..]) == [] then Err(Mismatch(hash, before, e, data)) else Ok(s.next)
  {
    OneIsBad(hash, s, i, before, e, after, data);
    BadIds(hash, s, i, before, e, after, data);
    BadOpens(hash, DamagedImage(hash, s, i, before, e, after, data), s.Files(), i, Mismatch(hash, before, e, data));
    LastOfTail(s, i + 1, Mismatch(hash, before, e, data));
  }

  /** The number after the last one, or the error. */
  function NextOr(later: seq<Entry>, error: WalError): Result<nat> {
    if later == [] then Err(error) else Ok(later[|later| - 1].sequence + 1)
  }

  lemma ResumesBehind(hash: Hash, segments: map<nat, Bytes>, later: seq<Entry>, error: WalError)
    requires forall id :: id in Sorted(segments.Keys) ==> id in segments
    requires Highest(hash, segments, Sorted(segments.Keys)) == LastOr(later, error)
    ensures Resumption(hash, segments) == NextOr(later, error)
  {}

  lemma BadOpens(hash: Hash, bad: map<nat, Bytes>, files: seq<Chunk>, i: nat, error: WalError)
    requires OneBad(hash, bad, files, i, error) && Sorted(bad.Keys) == IdsOf(files)
    ensures Resumption(hash, bad) == NextOr(Flat(files[i + 1..]), error)
  {
    WholeAndTail(files, i + 1);
    BadHighest(hash, bad, files, i, error, |files|);
    ResumesBehind(hash, bad, Flat(files[i + 1..]), error);
  }

  lemma WholeAndTail(files: seq<Chunk>, k: nat)
    requires k <= |files|
    ensures files[..|files|] == files && files[k..|files|] == files[k..]
  {}

  lemma LastOfTail(s: WalState, k: nat, error: WalError)
    requires s.WellFormed() && k <= |s.Files()|
    ensures NextOr(Flat(s.Files()[k..]), error)
            == if Flat(s.Files()[k..]) == [] then Err(error) else Ok(s.next)
  {
    var files, later := s.Files(), Flat(s.Files()[k..]);
    FlatSnoc(s.sealed, s.active);
    FlatConcat(files[..k], files[k..]);
    assert files == files[..k] + files[k..];
    if later != [] {
      assert s.Contents()[|s.Contents()| - 1] == later[|later| - 1];
    }
  }
}
