/** The write-ahead log over its files, each method tied to the operation of `SegmentedLog` it carries out. */
module WalStore {
  import opened Bytes
  import opened EntryCodec
  import opened SegmentedLog

  /** The log directory: segment files by id and the checkpoint file. Writes are durable once made. */
  class Disk {
    const hash: Hash
    var segments: map<nat, Bytes>
    var checkpoint: Option<Bytes>

    constructor (hash: Hash)
      ensures this.hash == hash && segments == map[] && checkpoint == None
    {
      this.hash := hash;
      segments := map[];
      checkpoint := None;
    }

    /** The segment ids in ascending order, however the directory lists them. */
    method ListSegments() returns (ids: seq<nat>)
      ensures ids == Sorted(segments.Keys)
    {
      ids := [];
      var left := segments.Keys;
      while left != {}
        invariant ids + Sorted(left) == Sorted(segments.Keys)
      {
        LeastExists(left);
        var least :| IsLeast(least, left);
        SortedStep(ids, left, least);
        ids := ids + [least];
        left := left - {least};
      }
    }
  }

  predicate IsLeast(x: nat, s: set<nat>) {
    x in s && forall y :: y in s ==> x <= y
  }

  lemma {:induction false} LeastExists(s: set<nat>)
    requires s != {}
    ensures exists x :: IsLeast(x, s)
    decreases |s|
  {
    var x :| x in s;
    var rest := s - {x};
    if rest == {} {
      assert forall y :: y in s ==> y == x by {
        assert forall y :: y in s && y != x ==> y in rest;
      }
      assert IsLeast(x, s);
    } else {
      LeastExists(rest);
      var y :| IsLeast(y, rest);
      var least := if x <= y then x else y;
      forall z | z in s
        ensures least <= z
      {
        assert z == x || z in rest;
      }
      assert IsLeast(least, s);
    }
  }

  ghost predicate Increasing(ids: seq<nat>) {
    forall i, j :: 0 <= i < j < |ids| ==> ids[i] < ids[j]
  }

  /** The members of a set in ascending order. */
  ghost function Sorted(s: set<nat>): (ids: seq<nat>)
    ensures Increasing(ids)
    ensures forall id :: id in s <==> id in ids
    decreases |s|
  {
    if s == {} then [] else
      LeastExists(s);
      var x :| IsLeast(x, s);
      [x] + Sorted(s - {x})
  }

  lemma SortedStep(ids: seq<nat>, s: set<nat>, least: nat)
    requires IsLeast(least, s)
    ensures ids + Sorted(s) == (ids + [least]) + Sorted(s - {least})
  {
    LeastExists(s);
    var x :| IsLeast(x, s) && Sorted(s) == [x] + Sorted(s - {x});
    assert x == least;
  }

  /** The directory that holds exactly these segments. */
  function Image(hash: Hash, files: seq<Chunk>): map<nat, Bytes> {
    if files == [] then map[]
    else
      var c := files[|files| - 1];
      Image(hash, files[..|files| - 1])[c.id := Stream(hash, c.entries)]
  }

  ghost predicate Stored(hash: Hash, segments: map<nat, Bytes>, s: WalState) {
    s.WellFormed() && segments == Image(hash, s.Files())
  }

  // ---- Segment files ----

  class Segment {
    const disk: Disk
    const id: nat
    const maxBytes: nat
    var size: nat

    ghost predicate Valid()
      reads this, disk
    {
      id in disk.segments && size == |disk.segments[id]|
    }

    constructor OpenForAppend(disk: Disk, id: nat, maxBytes: nat)
      requires id in disk.segments
      ensures this.disk == disk && this.id == id && this.maxBytes == maxBytes && Valid()
    {
      this.disk, this.id, this.maxBytes := disk, id, maxBytes;
      size := |disk.segments[id]|;
    }

    static method Create(disk: Disk, id: nat, maxBytes: nat) returns (r: Result<Segment>)
      modifies disk`segments
      ensures id in old(disk.segments) ==> r == Err(AlreadyExists(id)) && disk.segments == old(disk.segments)
      ensures id !in old(disk.segments) ==>
                && r.Ok? && fresh(r.value) && r.value.Valid()
                && r.value.disk == disk && r.value.id == id && r.value.maxBytes == maxBytes && r.value.size == 0
                && disk.segments == old(disk.segments)[id := []]
    {
      if id in disk.segments {
        return Err(AlreadyExists(id));
      }
      disk.segments := disk.segments[id := []];
      var segment := new Segment.OpenForAppend(disk, id, maxBytes);
      r := Ok(segment);
    }

    predicate WouldOverflow(encodedLen: nat)
      reads this
    {
      size + encodedLen > maxBytes
    }

    method Append(encoded: Bytes) returns (r: Result<()>)
      requires Valid()
      modifies this, disk`segments
      ensures Valid()
      ensures old(WouldOverflow(|encoded|)) ==>
                && r == Err(SegmentFull(old(size), maxBytes, |encoded|))
                && disk.segments == old(disk.segments) && size == old(size)
      ensures !old(WouldOverflow(|encoded|)) ==>
                r == Ok(()) && disk.segments == old(disk.segments)[id := old(disk.segments[id]) + encoded]
    {
      var newSize := size + |encoded|;
      if newSize > maxBytes {
        return Err(SegmentFull(size, maxBytes, |encoded|));
      }
      disk.segments := disk.segments[id := disk.segments[id] + encoded];
      size := newSize;
      r := Ok(());
    }
  }

  // ---- The checkpoint ----

  /** What a checkpoint file says; a missing or short one says 0. */
  function CheckpointIn(file: Option<Bytes>): nat {
    if file.Some? && |file.value| >= 8 then FromLe(file.value[..8]) else 0
  }

  /** A checkpoint file says what was last written to it, whatever follows; one that is missing or too short says that
      nothing has been applied. */
  lemma CheckpointReads(sequence: nat, junk: Bytes, short: Bytes)
    requires sequence < U64 && |short| < 8
    ensures CheckpointIn(Some(ToLe(sequence, 8) + junk)) == sequence
    ensures CheckpointIn(None) == 0 && CheckpointIn(Some(short)) == 0
  {
    Le64(sequence);
    assert (ToLe(sequence, 8) + junk)[..8] == ToLe(sequence, 8);
  }

  class CheckpointFile {
    const disk: Disk
    var sequence: nat

    /** The cached value is the durable one. */
    ghost predicate Valid()
      reads this, disk
    {
      sequence == CheckpointIn(disk.checkpoint)
    }

    constructor Open(disk: Disk)
      ensures this.disk == disk && Valid()
      ensures disk.checkpoint == None || |disk.checkpoint.value| < 8 ==> sequence == 0
    {
      this.disk := disk;
      sequence := if disk.checkpoint.Some? && |disk.checkpoint.value| >= 8
      then FromLe(disk.checkpoint.value[..8]) else 0;
    }

    /** The checkpoint never goes back, in memory or on disk. */
    method Advance(sequence: nat)
      requires Valid() && sequence < U64
      modifies this, disk`checkpoint
      ensures Valid()
      ensures this.sequence == if sequence > old(this.sequence) then sequence else old(this.sequence)
      ensures disk.checkpoint == if sequence > old(this.sequence) then Some(ToLe(sequence, 8)) else old(disk.checkpoint)
    {
      if sequence > this.sequence {
        Le64(sequence);
        disk.checkpoint := Some(ToLe(sequence, 8));
        assert ToLe(sequence, 8)[..8] == ToLe(sequence, 8);
        this.sequence := sequence;
      }
    }
  }

  // ---- Finding the end of the numbering ----

  /** The last sequence number in the most recent segment that is not empty, reading backwards. */
  function Highest(hash: Hash, segments: map<nat, Bytes>, ids: seq<nat>): Result<Option<nat>>
    requires forall id :: id in ids ==> id in segments
  {
    if ids == [] then Ok(None)
    else
      match Parse(hash, segments[ids[|ids| - 1]], 0)
      case Err(e) => Err(e)
      case Ok(entries) =>
        if entries != [] then Ok(Some(entries[|entries| - 1].sequence))
        else Highest(hash, segments, ids[..|ids| - 1])
  }

  method HighestSequenceOnDisk(disk: Disk, active: nat, sealed: seq<nat>) returns (r: Result<Option<nat>>)
    requires active in disk.segments && forall id :: id in sealed ==> id in disk.segments
    ensures r == Highest(disk.hash, disk.segments, sealed + [active])
  {
    assert (sealed + [active])[..|sealed|] == sealed;
    var activeEntries := ReadEntries(disk.hash, disk.segments[active]);
    if activeEntries.Err? {
      return Err(activeEntries.error);
    }
    if activeEntries.value != [] {
      return Ok(Some(activeEntries.value[|activeEntries.value| - 1].sequence));
    }
    var i := |sealed|;
    assert sealed[..i] == sealed;
    while i > 0
      invariant 0 <= i <= |sealed|
      invariant Highest(disk.hash, disk.segments, sealed[..i]) == Highest(disk.hash, disk.segments, sealed + [active])
    {
      i := i - 1;
      assert sealed[..i + 1][..i] == sealed[..i];
      var entries := ReadEntries(disk.hash, disk.segments[sealed[i]]);
      if entries.Err? {
        return Err(entries.error);
      }
      if entries.value != [] {
        return Ok(Some(entries.value[|entries.value| - 1].sequence));
      }
    }
    r := Ok(None);
  }

  function IdsOf(files: seq<Chunk>): (ids: seq<nat>)
    ensures |ids| == |files| && forall i :: 0 <= i < |files| ==> ids[i] == files[i].id
  {
    seq(|files|, i requires 0 <= i < |files| => files[i].id)
  }

  lemma ImageSnoc(hash: Hash, files: seq<Chunk>, c: Chunk)
    ensures Image(hash, files + [c]) == Image(hash, files)[c.id := Stream(hash, c.entries)]
  {
    assert (files + [c])[..|files|] == files;
  }

  lemma {:induction false} ImageKeys(hash: Hash, files: seq<Chunk>, id: nat)
    ensures id in Image(hash, files) <==> id in IdsOf(files)
  {
    if files != [] {
      var prefix, c := files[..|files| - 1], files[|files| - 1];
      ImageKeys(hash, prefix, id);
      assert IdsOf(files) == IdsOf(prefix) + [c.id];
    }
  }

  lemma {:induction false} ImageAt(hash: Hash, files: seq<Chunk>, i: nat)
    requires Ascending(files) && i < |files|
    ensures files[i].id in Image(hash, files) && Image(hash, files)[files[i].id] == Stream(hash, files[i].entries)
  {
    if i < |files| - 1 {
      var prefix, c := files[..|files| - 1], files[|files| - 1];
      ImageAt(hash, prefix, i);
      assert files[i].id < c.id;
    }
  }

  lemma HighestStep(hash: Hash, segments: map<nat, Bytes>, ids: seq<nat>, last: nat)
    requires last in segments && forall id :: id in ids ==> id in segments
    ensures forall id :: id in ids + [last] ==> id in segments
    ensures Highest(hash, segments, ids + [last])
            == match Parse(hash, segments[last], 0)
               case Err(e) => Err(e)
               case Ok(es) => if es != [] then Ok(Some(es[|es| - 1].sequence)) else Highest(hash, segments, ids)
  {
    assert (ids + [last])[..|ids|] == ids;
  }

  /** On intact segments that is the number of the last entry of all. */
  lemma {:induction false} HighestIsLast(hash: Hash, segments: map<nat, Bytes>, files: seq<Chunk>)
    requires forall i :: 0 <= i < |files| ==>
               files[i].id in segments && segments[files[i].id] == Stream(hash, files[i].entries)
    requires AllFit(Flat(files))
    ensures forall id :: id in IdsOf(files) ==> id in segments
    ensures Highest(hash, segments, IdsOf(files))
            == Ok(if Flat(files) == [] then None else Some(Flat(files)[|Flat(files)| - 1].sequence))
  {
    if files != [] {
      var prefix, c := files[..|files| - 1], files[|files| - 1];
      assert files == prefix + [c];
      FlatSnoc(prefix, c);
      assert AllFit(Flat(prefix)) && AllFit(c.entries);
      HighestIsLast(hash, segments, prefix);
      assert IdsOf(files) == IdsOf(prefix) + [c.id];
      HighestStep(hash, segments, IdsOf(prefix), c.id);
      ParseInverts(hash, c.entries);
    }
  }

  ghost predicate SameIds(a: seq<nat>, b: seq<nat>) {
    forall id :: id in a <==> id in b
  }

  /** Two ascending lists of the same ids are the same list. */
  lemma {:induction false} ListingIsUnique(a: seq<nat>, b: seq<nat>)
    requires Increasing(a) && Increasing(b)
    requires SameIds(a, b)
    ensures a == b
  {
    if a != [] || b != [] {
      SameLast(a, b);
      ListingIsUnique(a[..|a| - 1], b[..|b| - 1]);
      assert a == a[..|a| - 1] + [a[|a| - 1]] && b == b[..|b| - 1] + [b[|b| - 1]];
    }
  }

  lemma SameLast(a: seq<nat>, b: seq<nat>)
    requires Increasing(a) && Increasing(b) && (a != [] || b != [])
    requires SameIds(a, b)
    ensures a != [] && b != [] && a[|a| - 1] == b[|b| - 1]
    ensures Increasing(a[..|a| - 1]) && Increasing(b[..|b| - 1])
    ensures SameIds(a[..|a| - 1], b[..|b| - 1])
  {
    var z := if a != [] then a[0] else b[0];
    assert z in a && z in b;
    LastIsGreatest(a);
    LastIsGreatest(b);
    assert a[|a| - 1] == b[|b| - 1];
    var a', b' := a[..|a| - 1], b[..|b| - 1];
    forall id
      ensures id in a' <==> id in b'
    {
      assert id in a' <==> id in a && id != a[|a| - 1];
    }
  }

  lemma LastIsGreatest(ids: seq<nat>)
    requires Increasing(ids) && ids != []
    ensures ids[|ids| - 1] in ids && forall id :: id in ids ==> id <= ids[|ids| - 1]
    ensures Increasing(ids[..|ids| - 1])
    ensures forall id :: id in ids[..|ids| - 1] <==> id in ids && id != ids[|ids| - 1]
  {
    var n := |ids| - 1;
    forall id | id in ids && id != ids[n]
      ensures id in ids[..n]
    {
      var i :| 0 <= i < |ids| && ids[i] == id;
      assert ids[..n][i] == id;
    }
  }

  lemma SortedIsIds(hash: Hash, files: seq<Chunk>)
    requires Ascending(files)
    ensures Sorted(Image(hash, files).Keys) == IdsOf(files)
  {
    var ids := Sorted(Image(hash, files).Keys);
    forall id
      ensures id in ids <==> id in IdsOf(files)
    {
      ImageKeys(hash, files, id);
    }
    ListingIsUnique(ids, IdsOf(files));
  }

  /** Intact directories have one reading: ids and entries are determined by the files. */
  lemma StoredIsUnique(hash: Hash, segments: map<nat, Bytes>, s: WalState)
    requires Stored(hash, segments, s)
    ensures Sorted(segments.Keys) == IdsOf(s.Files())
    ensures Highest(hash, segments, Sorted(segments.Keys))
            == Ok(if s.Contents() == [] then None else Some(s.Contents()[|s.Contents()| - 1].sequence))
  {
    SortedIsIds(hash, s.Files());
    FlatSnoc(s.sealed, s.active);
    FilesAreHeld(hash, s.Files());
    HighestIsLast(hash, segments, s.Files());
  }

  lemma FilesAreHeld(hash: Hash, files: seq<Chunk>)
    requires Ascending(files)
    ensures forall i :: 0 <= i < |files| ==>
              files[i].id in Image(hash, files) && Image(hash, files)[files[i].id] == Stream(hash, files[i].entries)
  {
    forall i | 0 <= i < |files|
      ensures files[i].id in Image(hash, files) && Image(hash, files)[files[i].id] == Stream(hash, files[i].entries)
    {
      ImageAt(hash, files, i);
    }
  }

  lemma {:induction false} ChunksAreUnique(hash: Hash, a: seq<Chunk>, b: seq<Chunk>)
    requires Ascending(a) && Ascending(b) && Image(hash, a) == Image(hash, b)
    requires IdsOf(a) == IdsOf(b) && AllFit(Flat(a)) && AllFit(Flat(b))
    ensures a == b
  {
    assert |a| == |IdsOf(a)| == |b|;
    forall i | 0 <= i < |a|
      ensures a[i] == b[i]
    {
      assert a[i].id == IdsOf(a)[i] == b[i].id;
      ImageAt(hash, a, i);
      ImageAt(hash, b, i);
      FitsEach(a, i);
      FitsEach(b, i);
      ParseInverts(hash, a[i].entries);
      ParseInverts(hash, b[i].entries);
    }
  }

  lemma {:induction false} FitsEach(files: seq<Chunk>, i: nat)
    requires AllFit(Flat(files)) && i < |files|
    ensures AllFit(files[i].entries)
  {
    assert AllFit(files[0].entries) && AllFit(Flat(files[1..]));
    if i > 0 {
      FitsEach(files[1..], i - 1);
    }
  }

  lemma SameReading(hash: Hash, segments: map<nat, Bytes>, s: WalState, t: WalState)
    requires Stored(hash, segments, s) && Stored(hash, segments, t)
    ensures s.Reopen() == t.Reopen()
  {
    SortedIsIds(hash, s.Files());
    SortedIsIds(hash, t.Files());
    FlatSnoc(s.sealed, s.active);
    FlatSnoc(t.sealed, t.active);
    ChunksAreUnique(hash, s.Files(), t.Files());
    assert s.sealed == s.Files()[..|s.Files()| - 1] == t.sealed;
    assert s.active == s.Files()[|s.Files()| - 1] == t.active;
  }

  /** The directory holds a whole log. */
  ghost predicate Intact(hash: Hash, segments: map<nat, Bytes>) {
    exists s :: Stored(hash, segments, s)
  }

  /** What opening an intact directory finds. */
  ghost function Reading(hash: Hash, segments: map<nat, Bytes>): WalState
    requires Intact(hash, segments)
  {
    var s :| Stored(hash, segments, s); s.Reopen()
  }

  /** There is only one reading of an intact directory. */
  lemma ReadingIsReopen(hash: Hash, segments: map<nat, Bytes>, s: WalState)
    requires Stored(hash, segments, s)
    ensures Intact(hash, segments) && Reading(hash, segments) == s.Reopen()
  {
    var t :| Stored(hash, segments, t) && Reading(hash, segments) == t.Reopen();
    SameReading(hash, segments, s, t);
  }

  lemma NothingStored(hash: Hash)
    ensures !Intact(hash, map[])
    ensures Stored(hash, map[1 := []], FRESH)
  {
    forall s: WalState
      ensures !Stored(hash, map[], s)
    {
      assert s.active.id in Image(hash, s.Files());
    }
    assert FRESH.Files() == [] + [Chunk(1, [])];
    ImageSnoc(hash, [], Chunk(1, []));
  }

  /** The sequence number the next append of a reopened log gets, if its last segments can be read. */
  ghost function Resumption(hash: Hash, segments: map<nat, Bytes>): Result<nat> {
    match Highest(hash, segments, Sorted(segments.Keys))
    case Err(e) => Err(e)
    case Ok(h) => Ok(if h == None then 1 else h.value + 1)
  }

  lemma StoredResumes(hash: Hash, segments: map<nat, Bytes>, s: WalState)
    requires Stored(hash, segments, s)
    ensures Stored(hash, segments, s.Reopen())
    ensures Sorted(segments.Keys) == IdsOf(s.Reopen().Files())
    ensures Resumption(hash, segments) == Ok(s.Reopen().next)
  {
    var t := s.Reopen();
    assert t.Files() == s.Files();
    assert t.WellFormed() by {
      ReopenRestoresNext(s);
    }
    StoredIsUnique(hash, segments, s);
  }

  ghost function ReadingIfAny(hash: Hash, segments: map<nat, Bytes>): (s: WalState)
    ensures Intact(hash, segments) ==>
              && s == Reading(hash, segments) && Stored(hash, segments, s)
              && Sorted(segments.Keys) == IdsOf(s.Files()) && Resumption(hash, segments) == Ok(s.next)
  {
    if Intact(hash, segments) then
      ReadingResumes(hash, segments);
      Reading(hash, segments)
    else FRESH
  }

  lemma ReadingResumes(hash: Hash, segments: map<nat, Bytes>)
    requires Intact(hash, segments)
    ensures var s := Reading(hash, segments);
            && Stored(hash, segments, s)
            && Sorted(segments.Keys) == IdsOf(s.Files())
            && Resumption(hash, segments) == Ok(s.next)
  {
    var s :| Stored(hash, segments, s) && Reading(hash, segments) == s.Reopen();
    StoredResumes(hash, segments, s);
  }

  lemma NewIdIsFree(hash: Hash, s: WalState)
    requires Ascending(s.Files())
    ensures s.active.id + 1 !in Image(hash, s.Files())
  {
    ImageKeys(hash, s.Files(), s.active.id + 1);
    assert s.Files()[|s.sealed|] == s.active;
    assert forall i :: 0 <= i < |s.Files()| ==> IdsOf(s.Files())[i] <= s.active.id;
  }

  lemma RotationStored(hash: Hash, segments: map<nat, Bytes>, s: WalState, t: WalState)
    requires Stored(hash, segments, s)
    requires t == WalState(s.sealed + [s.active], Chunk(s.active.id + 1, []), s.next)
    ensures s.active.id + 1 !in segments
    ensures Stored(hash, segments[s.active.id + 1 := []], t)
    ensures IdsOf(t.Files()) == IdsOf(s.Files()) + [s.active.id + 1]
  {
    NewIdIsFree(hash, s);
    FlatSnoc(s.sealed, s.active);
    assert t.Contents() == s.Contents();
    assert t.Files() == s.Files() + [t.active];
    ImageSnoc(hash, s.Files(), t.active);
    assert s.Files()[|s.sealed|] == s.active;
  }

  lemma ActiveSize(hash: Hash, segments: map<nat, Bytes>, s: WalState)
    requires Stored(hash, segments, s)
    ensures s.active.id in segments && segments[s.active.id] == Stream(hash, s.active.entries)
    ensures |segments[s.active.id]| == SizeOf(s.active.entries)
  {
    ImageSnoc(hash, s.sealed, s.active);
    SizeIsLength(hash, s.active.entries);
  }

  lemma AddedBytes(hash: Hash, entries: seq<Entry>, e: Entry)
    ensures Stream(hash, entries + [e]) == Stream(hash, entries) + Encode(hash, e.sequence, e.data)
  {
    StreamConcat(hash, entries, [e]);
    assert [e][1..] == [];
  }

  lemma AddedStored(hash: Hash, segments: map<nat, Bytes>, s: WalState, data: Bytes)
    requires Stored(hash, segments, s) && |data| < U32 && s.next < U64
    requires s.active.id in segments
    ensures Stored(hash, segments[s.active.id := segments[s.active.id] + Encode(hash, s.next, data)], s.Added(data))
    ensures IdsOf(s.Added(data).Files()) == IdsOf(s.Files())
  {
    AddedIsSound(s, data);
    AddedImage(hash, s, data);
    ActiveSize(hash, segments, s);
  }

  lemma AddedIsSound(s: WalState, data: Bytes)
    requires s.WellFormed() && AllFit(s.Contents()) && |data| < U32 && s.next < U64
    ensures s.Added(data).WellFormed() && AllFit(s.Added(data).Contents())
    ensures IdsOf(s.Added(data).Files()) == IdsOf(s.Files())
  {
    var t := s.Added(data);
    assert forall i :: 0 <= i < |t.Files()| ==> t.Files()[i].id == s.Files()[i].id;
    assert t.Contents() == s.Contents() + [Entry(s.next, data)];
  }

  lemma AddedImage(hash: Hash, s: WalState, data: Bytes)
    ensures Image(hash, s.Added(data).Files())
            == Image(hash, s.Files())
               [s.active.id := Stream(hash, s.active.entries) + Encode(hash, s.next, data)]
  {
    AddedBytes(hash, s.active.entries, Entry(s.next, data));
    ImageSnoc(hash, s.sealed, s.active);
    ImageSnoc(hash, s.sealed, s.Added(data).active);
  }

  lemma SealedParse(hash: Hash, s: WalState, i: nat)
    requires AllFit(s.Contents()) && i < |s.sealed|
    ensures Parse(hash, Stream(hash, s.sealed[i].entries), 0) == Ok(s.sealed[i].entries)
  {
    assert AllFit(Flat(s.sealed));
    FitsEach(s.sealed, i);
    ParseInverts(hash, s.sealed[i].entries);
  }

  /** One segment's part of a read. */
  method Select(entries: seq<Entry>, from: nat) returns (kept: seq<Entry>)
    ensures kept == From(entries, from)
  {
    kept := [];
    var i := 0;
    while i < |entries|
      invariant 0 <= i <= |entries|
      invariant kept + From(entries[i..], from) == From(entries, from)
    {
      if entries[i].sequence >= from {
        kept := kept + [entries[i]];
      }
      i := i + 1;
    }
  }

  /** Reading segment after segment. */
  function ReadAll(hash: Hash, segments: map<nat, Bytes>, ids: seq<nat>, from: nat): Result<seq<Entry>>
    requires forall id :: id in ids ==> id in segments
  {
    if ids == [] then Ok([])
    else
      match ReadAll(hash, segments, ids[..|ids| - 1], from)
      case Err(e) => Err(e)
      case Ok(before) =>
        match Parse(hash, segments[ids[|ids| - 1]], 0)
        case Err(e) => Err(e)
        case Ok(entries) => Ok(before + From(entries, from))
  }

  lemma {:induction false} ReadAllStops(hash: Hash, segments: map<nat, Bytes>, ids: seq<nat>, i: nat, from: nat)
    requires i < |ids| && forall id :: id in ids ==> id in segments
    requires ReadAll(hash, segments, ids[..i + 1], from).Err?
    ensures ReadAll(hash, segments, ids, from) == ReadAll(hash, segments, ids[..i + 1], from)
  {
    if i + 1 == |ids| {
      assert ids[..i + 1] == ids;
    } else {
      assert ids[..|ids| - 1][..i + 1] == ids[..i + 1];
      ReadAllStops(hash, segments, ids[..|ids| - 1], i, from);
    }
  }

  /** Intact segments read back as what they hold. */
  lemma {:induction false} ReadsChunks(hash: Hash, segments: map<nat, Bytes>, files: seq<Chunk>, from: nat)
    requires forall i :: 0 <= i < |files| ==>
               files[i].id in segments && Parse(hash, segments[files[i].id], 0) == Ok(files[i].entries)
    ensures forall id :: id in IdsOf(files) ==> id in segments
    ensures ReadAll(hash, segments, IdsOf(files), from) == Ok(From(Flat(files), from))
  {
    if files != [] {
      var n := |files| - 1;
      assert files == files[..n] + [files[n]];
      ReadsChunks(hash, segments, files[..n], from);
      assert IdsOf(files)[..n] == IdsOf(files[..n]);
      FlatSnoc(files[..n], files[n]);
      FromConcat(Flat(files[..n]), files[n].entries, from);
    }
  }

  lemma ReadsState(hash: Hash, segments: map<nat, Bytes>, s: WalState, from: nat)
    requires Stored(hash, segments, s)
    ensures forall id :: id in IdsOf(s.Files()) ==> id in segments
    ensures ReadAll(hash, segments, IdsOf(s.Files()), from) == Ok(s.ReadFrom(from))
  {
    var files := s.Files();
    FlatSnoc(s.sealed, s.active);
    forall i | 0 <= i < |files|
      ensures files[i].id in segments && Parse(hash, segments[files[i].id], 0) == Ok(files[i].entries)
    {
      ImageAt(hash, files, i);
      FitsEach(files, i);
      ParseInverts(hash, files[i].entries);
    }
    ReadsChunks(hash, segments, files, from);
  }

  lemma SplitIds(sealed: seq<nat>, last: nat, segments: map<nat, Bytes>)
    requires forall id :: id in sealed + [last] ==> id in segments
    ensures last in segments && forall id :: id in sealed ==> id in segments
  {
    assert (sealed + [last])[|sealed|] == last;
    forall id | id in sealed
      ensures id in segments
    {
      assert id in sealed + [last];
    }
  }

  // ---- Deleting segments one by one ----

  /** The segments left when the first `i` sealed ones have been examined. */
  function Partial(s: WalState, i: nat, before: nat): seq<Chunk>
    requires i <= |s.sealed|
  {
    Keep(s.sealed[..i], before) + s.sealed[i..] + [s.active]
  }

  lemma {:induction false} KeepSnoc(a: seq<Chunk>, c: Chunk, before: nat)
    ensures Keep(a + [c], before) == Keep(a, before) + if MaxSequence(c.entries) < before then [] else [c]
  {
    if a != [] {
      KeepSnoc(a[1..], c, before);
      assert (a + [c])[1..] == a[1..] + [c];
    }
  }

  lemma ImageLacks(hash: Hash, a: seq<Chunk>, id: nat)
    requires forall c :: c in a ==> c.id != id
    ensures id !in Image(hash, a)
  {
    ImageKeys(hash, a, id);
  }

  lemma {:induction false} ImageWithout(hash: Hash, a: seq<Chunk>, c: Chunk, b: seq<Chunk>)
    requires forall d :: d in a + b ==> d.id != c.id
    ensures Image(hash, a + [c] + b) - {c.id} == Image(hash, a + b)
  {
    if b == [] {
      assert (a + [c]) + b == a + [c] && a + b == a;
      ImageSnoc(hash, a, c);
      ImageLacks(hash, a, c.id);
    } else {
      var b', d := b[..|b| - 1], b[|b| - 1];
      assert d in a + b;
      assert (a + [c]) + b == ((a + [c]) + b') + [d] && a + b == (a + b') + [d];
      ImageWithout(hash, a, c, b');
      ImageSnoc(hash, (a + [c]) + b', d);
      ImageSnoc(hash, a + b', d);
    }
  }

  lemma AscendingParts(a: seq<Chunk>, b: seq<Chunk>)
    requires Ascending(a + b)
    ensures Ascending(a) && Ascending(b)
    ensures forall c, d :: c in a && d in b ==> c.id < d.id
  {
    assert forall i :: 0 <= i < |a| ==> (a + b)[i] == a[i];
    assert forall i :: 0 <= i < |b| ==> (a + b)[|a| + i] == b[i];
  }

  lemma OthersDiffer(a: seq<Chunk>, c: Chunk, b: seq<Chunk>)
    requires Ascending(a + [c] + b)
    ensures forall d :: d in a + b ==> d.id != c.id
  {
    AscendingParts(a + [c], b);
    AscendingParts(a, [c]);
    assert c in [c] && c in a + [c];
  }

  lemma AscendingJoin(a: seq<Chunk>, b: seq<Chunk>)
    requires Ascending(a) && Ascending(b)
    requires forall c, d :: c in a && d in b ==> c.id < d.id
    ensures Ascending(a + b)
  {}

  lemma PartialAscends(s: WalState, i: nat, before: nat)
    requires Ascending(s.Files()) && i <= |s.sealed|
    ensures Ascending(Partial(s, i, before))
  {
    var files, a, b := s.Files(), s.sealed[..i], s.sealed[i..] + [s.active];
    assert files == a + b;
    AscendingParts(a, b);
    KeepIsSublist(a, before);
    AscendingJoin(Keep(a, before), b);
    assert Partial(s, i, before) == Keep(a, before) + b;
  }

  lemma PartialShape(s: WalState, i: nat, before: nat)
    requires i < |s.sealed|
    ensures var a, c, b := Keep(s.sealed[..i], before), s.sealed[i], s.sealed[i + 1..] + [s.active];
            && Partial(s, i, before) == a + [c] + b
            && Partial(s, i + 1, before) == if MaxSequence(c.entries) < before then a + b else a + [c] + b
  {
    assert s.sealed[..i + 1] == s.sealed[..i] + [s.sealed[i]];
    KeepSnoc(s.sealed[..i], s.sealed[i], before);
  }

  /** Deleting one segment's file leaves the files of all others. */
  lemma DeletedOne(hash: Hash, a: seq<Chunk>, c: Chunk, b: seq<Chunk>)
    requires Ascending(a + [c] + b)
    ensures c.id in Image(hash, a + [c] + b) && Image(hash, a + [c] + b)[c.id] == Stream(hash, c.entries)
    ensures Image(hash, a + [c] + b) - {c.id} == Image(hash, a + b)
  {
    OthersDiffer(a, c, b);
    ImageWithout(hash, a, c, b);
    assert (a + [c] + b)[|a|] == c;
    ImageAt(hash, a + [c] + b, |a|);
  }

  /** Where `truncate_before` stands after `i` sealed segments. */
  ghost predicate Progress(hash: Hash, s: WalState, i: nat, before: nat, segments: map<nat, Bytes>,
      remaining: seq<nat>) {
    && i <= |s.sealed|
    && segments == Image(hash, Partial(s, i, before))
    && remaining == IdsOf(Keep(s.sealed[..i], before))
  }

  lemma TruncatedStored(hash: Hash, s: WalState, before: nat, segments: map<nat, Bytes>, remaining: seq<nat>)
    requires s.WellFormed() && Progress(hash, s, |s.sealed|, before, segments, remaining)
    ensures Stored(hash, segments, s.TruncateBefore(before))
    ensures IdsOf(s.TruncateBefore(before).Files()) == remaining + [s.active.id]
  {
    assert s.sealed[..|s.sealed|] == s.sealed;
    assert Partial(s, |s.sealed|, before) == s.TruncateBefore(before).Files();
    TruncateKeepsWellFormed(s, before);
  }

  lemma SealedIds(s: WalState)
    ensures IdsOf(s.Files()) == IdsOf(s.sealed) + [s.active.id]
  {}

  lemma IdsSnoc(a: seq<Chunk>, c: Chunk)
    ensures IdsOf(a + [c]) == IdsOf(a) + [c.id]
  {}

  lemma ProgressFile(hash: Hash, s: WalState, i: nat, before: nat, segments: map<nat, Bytes>)
    requires Ascending(s.Files()) && i < |s.sealed| && segments == Image(hash, Partial(s, i, before))
    ensures var c := s.sealed[i];
            && c.id in segments && segments[c.id] == Stream(hash, c.entries)
            && Image(hash, Partial(s, i + 1, before))
               == if MaxSequence(c.entries) < before then segments - {c.id} else segments
  {
    PartialShape(s, i, before);
    PartialAscends(s, i, before);
    DeletedOne(hash, Keep(s.sealed[..i], before), s.sealed[i], s.sealed[i + 1..] + [s.active]);
  }

  lemma ProgressStep(hash: Hash, s: WalState, i: nat, before: nat, segments: map<nat, Bytes>, remaining: seq<nat>,
                     id: nat)
    requires Ascending(s.Files()) && AllFit(s.Contents()) && i < |s.sealed| && id == s.sealed[i].id
    requires Progress(hash, s, i, before, segments, remaining)
    ensures id in segments && Parse(hash, segments[id], 0) == Ok(s.sealed[i].entries)
    ensures if MaxSequence(s.sealed[i].entries) < before
            then Progress(hash, s, i + 1, before, segments - {id}, remaining)
            else Progress(hash, s, i + 1, before, segments, remaining + [id])
  {
    ProgressFile(hash, s, i, before, segments);
    SealedParse(hash, s, i);
    assert s.sealed[..i + 1] == s.sealed[..i] + [s.sealed[i]];
    KeepSnoc(s.sealed[..i], s.sealed[i], before);
    IdsSnoc(Keep(s.sealed[..i], before), s.sealed[i]);
  }

  lemma ProgressStart(hash: Hash, s: WalState, before: nat, segments: map<nat, Bytes>)
    requires Stored(hash, segments, s)
    ensures Progress(hash, s, 0, before, segments, [])
  {
    assert s.Files() == Partial(s, 0, before);
  }

  ghost predicate AllDecode(hash: Hash, segments: map<nat, Bytes>, ids: seq<nat>)
    requires forall id :: id in ids ==> id in segments
  {
    forall id :: id in ids ==> Parse(hash, segments[id], 0).Ok?
  }

  predicate Expires(hash: Hash, bytes: Bytes, before: nat) {
    Parse(hash, bytes, 0).Ok? && MaxSequence(Parse(hash, bytes, 0).value) < before
  }

  /** Those of these segments that can be read and hold no entry numbered `before` or higher. */
  ghost function Expired(hash: Hash, segments: map<nat, Bytes>, ids: seq<nat>, before: nat): set<nat>
    requires forall id :: id in ids ==> id in segments
  {
    set id | id in ids && Expires(hash, segments[id], before)
  }

  /** The others, in order. */
  function Unexpired(hash: Hash, segments: map<nat, Bytes>, ids: seq<nat>, before: nat): seq<nat>
    requires forall id :: id in ids ==> id in segments
  {
    if ids == [] then []
    else
      var last := ids[|ids| - 1];
      Unexpired(hash, segments, ids[..|ids| - 1], before) + if Expires(hash, segments[last], before) then [] else [last]
  }

  ghost predicate NoneTwice(ids: seq<nat>) {
    forall i, j :: 0 <= i < j < |ids| ==> ids[i] != ids[j]
  }

  /** The first `i` segments could be read, and those of them that had expired are gone. */
  ghost predicate Reclaimed(hash: Hash, was: map<nat, Bytes>, now: map<nat, Bytes>, ids: seq<nat>, i: nat,
      before: nat) {
    && i <= |ids| && (forall id :: id in ids[..i] ==> id in was)
    && AllDecode(hash, was, ids[..i]) && now == was - Expired(hash, was, ids[..i], before)
  }

  /** All segments could be read, and these remain. */
  ghost predicate ReclaimedAll(hash: Hash, was: map<nat, Bytes>, now: map<nat, Bytes>, ids: seq<nat>, before: nat,
      remaining: seq<nat>) {
    && Reclaimed(hash, was, now, ids, |ids|, before)
    && (forall id :: id in ids ==> id in was) && remaining == Unexpired(hash, was, ids, before)
  }

  /** The first segment that could not be read ended it. */
  ghost predicate Stopped(hash: Hash, was: map<nat, Bytes>, now: map<nat, Bytes>, ids: seq<nat>, before: nat,
      error: WalError) {
    exists i: nat :: i < |ids| && Reclaimed(hash, was, now, ids, i, before)
                     && ids[i] in was && Parse(hash, was[ids[i]], 0) == Err(error)
  }

  ghost predicate Keeps(hash: Hash, segments: map<nat, Bytes>, s: WalState, sealed: seq<nat>) {
    Stored(hash, segments, s) && sealed == IdsOf(s.sealed)
  }

  /** Where the loop stands after `i` segments, of any directory and of an intact one. */
  ghost predicate Underway(hash: Hash, was: map<nat, Bytes>, now: map<nat, Bytes>, ids: seq<nat>, i: nat, before: nat,
      remaining: seq<nat>, s: WalState) {
    && Reclaimed(hash, was, now, ids, i, before) && remaining == Unexpired(hash, was, ids[..i], before)
    && (Keeps(hash, was, s, ids) ==> Progress(hash, s, i, before, now, remaining))
  }

  lemma {:induction false} NothingExpired(hash: Hash, segments: map<nat, Bytes>, ids: seq<nat>, before: nat)
    ensures Reclaimed(hash, segments, segments, ids, 0, before)
    ensures ids[..0] == [] && Unexpired(hash, segments, ids[..0], before) == []
  {
    assert segments - {} == segments;
  }

  lemma {:induction false} ReclaimStart(hash: Hash, segments: map<nat, Bytes>, ids: seq<nat>, before: nat, s: WalState)
    ensures Underway(hash, segments, segments, ids, 0, before, [], s)
  {
    NothingExpired(hash, segments, ids, before);
    if Keeps(hash, segments, s, ids) {
      ProgressStart(hash, s, before, segments);
    }
  }

  lemma ReclaimStep(hash: Hash, was: map<nat, Bytes>, now: map<nat, Bytes>, ids: seq<nat>, i: nat, before: nat,
      remaining: seq<nat>, s: WalState)
    requires Underway(hash, was, now, ids, i, before, remaining, s)
    requires NoneTwice(ids) && i < |ids| && ids[i] in was
    ensures ids[i] in now && now[ids[i]] == was[ids[i]]
    ensures Keeps(hash, was, s, ids) ==> Parse(hash, was[ids[i]], 0).Ok?
    ensures Parse(hash, was[ids[i]], 0).Ok? ==>
              if Expires(hash, was[ids[i]], before)
              then Underway(hash, was, now - {ids[i]}, ids, i + 1, before, remaining, s)
              else Underway(hash, was, now, ids, i + 1, before, remaining + [ids[i]], s)
  {
    ReclaimedOne(hash, was, now, ids, i, before);
    if Keeps(hash, was, s, ids) {
      ProgressStep(hash, s, i, before, now, remaining, ids[i]);
    }
    assert ids[..i + 1][..i] == ids[..i];
    if Expires(hash, was[ids[i]], before) {
      assert remaining + [] == remaining;
    }
  }

  lemma ReclaimedOne(hash: Hash, was: map<nat, Bytes>, now: map<nat, Bytes>, ids: seq<nat>, i: nat, before: nat)
    requires Reclaimed(hash, was, now, ids, i, before) && NoneTwice(ids) && i < |ids| && ids[i] in was
    ensures ids[i] in now && now[ids[i]] == was[ids[i]]
    ensures Parse(hash, was[ids[i]], 0).Ok? ==>
              Reclaimed(hash, was, if Expires(hash, was[ids[i]], before) then now - {ids[i]} else now,
                        ids, i + 1, before)
  {
    assert ids[..i + 1] == ids[..i] + [ids[i]];
    var gone, more := Expired(hash, was, ids[..i], before), Expired(hash, was, ids[..i + 1], before);
    assert more == if Expires(hash, was[ids[i]], before) then gone + {ids[i]} else gone;
    assert was - (gone + {ids[i]}) == (was - gone) - {ids[i]};
  }

  /** The loop of `truncate_before`: deletes files, and returns the ids that remain. */
  method DeleteBelow(disk: Disk, sealed: seq<nat>, before: nat, ghost s: WalState) returns (r: Result<seq<nat>>)
    requires NoneTwice(sealed) && forall id :: id in sealed ==> id in disk.segments
    modifies disk`segments
    ensures match r
            case Ok(remaining) =>
              ReclaimedAll(disk.hash, old(disk.segments), disk.segments, sealed, before, remaining)
            case Err(e) => Stopped(disk.hash, old(disk.segments), disk.segments, sealed, before, e)
    ensures Keeps(disk.hash, old(disk.segments), s, sealed) ==>
              r.Ok? && Progress(disk.hash, s, |s.sealed|, before, disk.segments, r.value)
  {
    var remaining := [];
    var i := 0;
    ghost var was := disk.segments;
    ReclaimStart(disk.hash, was, sealed, before, s);
    while i < |sealed|
      invariant 0 <= i <= |sealed|
      invariant Underway(disk.hash, was, disk.segments, sealed, i, before, remaining, s)
    {
      var id := sealed[i];
      ReclaimStep(disk.hash, was, disk.segments, sealed, i, before, remaining, s);
      var entries := ReadEntries(disk.hash, disk.segments[id]);
      match entries {
        case Err(e) => return Err(e);
        case Ok(es) =>
          if MaxSequence(es) < before {
            disk.segments := disk.segments - {id};
          } else {
            remaining := remaining + [id];
          }
      }
      i := i + 1;
    }
    assert sealed[..i] == sealed;
    r := Ok(remaining);
  }

  // ---- Crashes between and inside writes ----

  lemma {:induction false} CompleteBeforeTorn(hash: Hash, entries: seq<Entry>, e: Entry, cut: nat)
    requires cut < HEADER_SIZE + |e.data|
    ensures Complete(hash, entries + [e], SizeOf(entries) + cut) == |entries|
  {
    if entries != [] {
      CompleteBeforeTorn(hash, entries[1..], e, cut);
      assert (entries + [e])[1..] == entries[1..] + [e];
    }
  }

  lemma TornEntry(hash: Hash, entries: seq<Entry>, e: Entry, cut: nat)
    requires AllFit(entries) && Fits(e) && 0 < cut < HEADER_SIZE + |e.data|
    ensures Parse(hash, Stream(hash, entries) + Encode(hash, e.sequence, e.data)[..cut], 0)
            == Err(UnexpectedEof(SizeOf(entries)))
  {
    var all, code := entries + [e], Encode(hash, e.sequence, e.data);
    AddedBytes(hash, entries, e);
    SizeIsLength(hash, entries);
    assert Stream(hash, all)[..SizeOf(entries) + cut] == Stream(hash, entries) + code[..cut];
    TornSegment(hash, all, SizeOf(entries) + cut, 0);
    CompleteBeforeTorn(hash, entries, e, cut);
    assert all[..|entries|] == entries;
  }

  lemma LastSegmentIsActive(hash: Hash, segments: map<nat, Bytes>, s: WalState)
    requires Stored(hash, segments, s)
    ensures var ids := Sorted(segments.Keys); ids != [] && ids[|ids| - 1] == s.active.id
  {
    SortedIsIds(hash, s.Files());
    assert IdsOf(s.Files())[|s.sealed|] == s.active.id;
  }

  /** A crash inside the write of an entry: if none or all of its bytes arrived, the log reopens without or with the
      entry; if only some did, it no longer opens, and the error points at the torn entry. */
  lemma CrashInAppend(hash: Hash, segments: map<nat, Bytes>, s: WalState, data: Bytes, cut: nat)
    requires Stored(hash, segments, s) && |data| < U32 && s.next < U64 && cut <= HEADER_SIZE + |data|
    ensures s.active.id in segments
    ensures var code := Encode(hash, s.next, data);
            var torn := segments[s.active.id := segments[s.active.id] + code[..cut]];
            && (cut == 0 ==> Stored(hash, torn, s))
            && (cut == |code| ==> Stored(hash, torn, s.Added(data)))
            && (0 < cut < |code| ==> Resumption(hash, torn) == Err(UnexpectedEof(SizeOf(s.active.entries))))
  {
    ActiveSize(hash, segments, s);
    var code := Encode(hash, s.next, data);
    var torn := segments[s.active.id := segments[s.active.id] + code[..cut]];
    if cut == 0 {
      assert code[..cut] == [];
      assert segments[s.active.id] + [] == segments[s.active.id];
      assert torn == segments;
    } else if cut == |code| {
      assert code[..cut] == code;
      AddedStored(hash, segments, s, data);
    } else {
      TornEntry(hash, s.active.entries, Entry(s.next, data), cut);
      LastSegmentIsActive(hash, segments, s);
      assert torn.Keys == segments.Keys;
    }
  }

  /** A crash between two deletions of `truncate_before`: the log is whole, without the entries deleted so far. */
  lemma CrashInTruncate(hash: Hash, s: WalState, before: nat, i: nat)
    requires s.WellFormed() && i <= |s.sealed|
    ensures var t := WalState(Keep(s.sealed[..i], before) + s.sealed[i..], s.active, s.next);
            Stored(hash, Image(hash, Partial(s, i, before)), t)
            && forall k :: k >= before ==> t.ReadFrom(k) == s.ReadFrom(k)
  {
    var a, b := s.sealed[..i], s.sealed[i..];
    var t := WalState(Keep(a, before) + b, s.active, s.next);
    assert s.sealed == a + b;
    var n := KeptContents(a, b, s.active.entries, s.next, before);
    PartialAscends(s, i, before);
    SuffixReads(s.Contents(), s.next, n, before);
  }

  lemma KeptContents(a: seq<Chunk>, b: seq<Chunk>, last: seq<Entry>, next: nat, before: nat) returns (n: nat)
    requires Gapless(Flat(a + b) + last, next)
    ensures n <= |Flat(a + b) + last|
    ensures Flat(Keep(a, before) + b) + last == (Flat(a + b) + last)[n..]
    ensures n > 0 ==> next - |Flat(a + b) + last| + n <= before
  {
    FlatConcat(a, b);
    FlatConcat(Keep(a, before), b);
    Reassociate(Flat(a), Flat(b), last, 0);
    GaplessParts(Flat(a), Flat(b) + last, next);
    n := KeepIsSuffix(a, next - |Flat(b) + last|, before);
    Reassociate(Flat(a), Flat(b), last, n);
  }

  lemma Reassociate(a: seq<Entry>, b: seq<Entry>, c: seq<Entry>, n: nat)
    requires n <= |a|
    ensures (a + b) + c == a + (b + c) && (a[n..] + b) + c == ((a + b) + c)[n..]
  {}

  lemma SuffixReads(entries: seq<Entry>, next: nat, n: nat, before: nat)
    requires Gapless(entries, next) && n <= |entries| && (n > 0 ==> next - |entries| + n <= before)
    ensures Gapless(entries[n..], next)
    ensures forall k :: k >= before ==> From(entries[n..], k) == From(entries, k)
  {
    var a, b := entries[..n], entries[n..];
    assert entries == a + b;
    forall k | k >= before
      ensures From(b, k) == From(entries, k)
    {
      assert forall e :: e in a ==> e.sequence < k;
      FromNone(a, k);
      FromConcat(a, b, k);
    }
  }

  /** An append is a write to the segment chosen for it. */
  lemma AppendAsWrite(s: WalState, data: Bytes, max: nat)
    ensures var need := HEADER_SIZE + |data|;
            var r := s.Rotated(need, max);
            && s.Append(data, max) == (if need > max then r else r.Added(data))
            && (SizeOf(r.active.entries) + need > max <==> need > max)
            && (need > max ==> SizeOf(r.active.entries) == 0)
  {}

  lemma AllPastZero(s: WalState)
    requires s.WellFormed()
    ensures s.ReadFrom(1) == s.Contents()
  {
    FromAll(s.Contents(), 1);
  }

  // ---- The write-ahead log ----

  class Wal {
    const disk: Disk
    const maxBytes: nat
    const checkpoint: CheckpointFile
    var active: Segment
    var sealed: seq<nat>
    var nextSequence: nat
    /** What the log holds. */
    ghost var state: WalState

    ghost predicate Valid()
      reads this, active, disk, checkpoint
    {
      && checkpoint.disk == disk && checkpoint.Valid()
      && active.disk == disk && active.maxBytes == maxBytes && active.Valid()
      && Stored(disk.hash, disk.segments, state)
      && state.next == nextSequence
      && sealed + [active.id] == IdsOf(state.Files())
    }

    constructor (disk: Disk, maxBytes: nat, checkpoint: CheckpointFile, active: Segment, sealed: seq<nat>,
                 nextSequence: nat, ghost state: WalState)
      ensures this.disk == disk && this.maxBytes == maxBytes && this.checkpoint == checkpoint
      ensures this.active == active && this.sealed == sealed && this.nextSequence == nextSequence
      ensures this.state == state
    {
      this.disk, this.maxBytes, this.checkpoint := disk, maxBytes, checkpoint;
      this.active, this.sealed, this.nextSequence := active, sealed, nextSequence;
      this.state := state;
    }

    /** A brand new log: one empty segment. */
    static method First(disk: Disk, maxBytes: nat, checkpoint: CheckpointFile) returns (wal: Wal)
      requires disk.segments == map[] && checkpoint.disk == disk && checkpoint.Valid()
      modifies disk`segments
      ensures fresh(wal) && fresh(wal.active) && wal.checkpoint == checkpoint
      ensures wal.disk == disk && wal.maxBytes == maxBytes && wal.Readable()
      ensures wal.Valid() && wal.state == FRESH && disk.segments == map[1 := []]
    {
      NothingStored(disk.hash);
      var segment := Segment.Create(disk, 1, maxBytes);
      wal := new Wal(disk, maxBytes, checkpoint, segment.value, [], 1, FRESH);
    }

    /** Re-opens the last segment for appending and finds the next sequence number. */
    static method Resume(disk: Disk, maxBytes: nat, checkpoint: CheckpointFile, existing: seq<nat>)
        returns (r: Result<Wal>)
      requires existing == Sorted(disk.segments.Keys) != [] && checkpoint.disk == disk && checkpoint.Valid()
      ensures r.Ok? ==> fresh(r.value) && fresh(r.value.active) && r.value.checkpoint == checkpoint
      ensures r.Ok? ==> r.value.disk == disk && r.value.maxBytes == maxBytes && r.value.Readable()
      ensures match Resumption(disk.hash, disk.segments)
              case Err(e) => r == Err(e)
              case Ok(next) => r.Ok? && r.value.nextSequence == next && r.value.sealed + [r.value.active.id] == existing
      ensures Intact(disk.hash, disk.segments) ==>
                r.Ok? && r.value.Valid() && r.value.state == Reading(disk.hash, disk.segments)
    {
      var sealed, last := existing[..|existing| - 1], existing[|existing| - 1];
      assert existing == sealed + [last];
      assert last in existing && forall id :: id in sealed ==> id in existing;
      var active := new Segment.OpenForAppend(disk, last, maxBytes);
      var highest := HighestSequenceOnDisk(disk, last, sealed);
      ghost var state := ReadingIfAny(disk.hash, disk.segments);
      if highest.Err? {
        return Err(highest.error);
      }
      var next := if highest.value == None then 1 else highest.value.value + 1;
      var wal := new Wal(disk, maxBytes, checkpoint, active, sealed, next, state);
      r := Ok(wal);
    }

    /** Opens the log of a directory, starting it if the directory holds no segment. A log left intact opens with the
        same entries and its numbering resumed; damage in the last segments is reported, never repaired. */
    static method Open(disk: Disk, maxBytes: nat) returns (r: Result<Wal>)
      modifies disk`segments
      ensures r.Ok? ==> fresh(r.value) && fresh(r.value.active) && fresh(r.value.checkpoint)
      ensures r.Ok? ==> r.value.disk == disk && r.value.maxBytes == maxBytes && r.value.Readable()
      ensures old(disk.segments) == map[] ==>
                r.Ok? && r.value.Valid() && r.value.state == FRESH && disk.segments == map[1 := []]
      ensures old(disk.segments) != map[] ==>
                && disk.segments == old(disk.segments)
                && (match Resumption(disk.hash, old(disk.segments))
                    case Err(e) => r == Err(e)
                    case Ok(next) => && r.Ok? && r.value.nextSequence == next
                                     && r.value.sealed + [r.value.active.id] == Sorted(disk.segments.Keys))
      ensures Intact(disk.hash, old(disk.segments)) ==>
                r.Ok? && r.value.Valid() && r.value.state == Reading(disk.hash, old(disk.segments))
      ensures r.Ok? ==> r.value.checkpoint.disk == disk && r.value.checkpoint.Valid()
      ensures r.Ok? && (disk.checkpoint == None || |disk.checkpoint.value| < 8) ==> r.value.checkpoint.sequence == 0
    {
      var checkpoint := new CheckpointFile.Open(disk);
      var existing := disk.ListSegments();
      if existing == [] {
        assert disk.segments == map[];
        NothingStored(disk.hash);
        var wal := First(disk, maxBytes, checkpoint);
        return Ok(wal);
      }
      r := Resume(disk, maxBytes, checkpoint, existing);
    }

    /** Seals the active segment and opens the next one. */
    method Rotate()
      requires Valid()
      modifies this, disk`segments
      ensures Valid()
      ensures state == WalState(old(state).sealed + [old(state).active], Chunk(old(active.id) + 1, []), old(state).next)
      ensures fresh(active) && active.size == 0
    {
      var oldId := active.id;
      ghost var rotated := WalState(state.sealed + [state.active], Chunk(oldId + 1, []), state.next);
      RotationStored(disk.hash, disk.segments, state, rotated);
      sealed := sealed + [oldId];
      var segment := Segment.Create(disk, oldId + 1, maxBytes);
      active := segment.value;
      state := rotated;
    }

    /** Writes the entry to the active segment, if it fits there. */
    method Write(data: Bytes) returns (r: Result<nat>)
      requires Valid() && |data| < U32 && nextSequence < U64
      modifies this, active, disk`segments
      ensures Valid() && active == old(active)
      ensures var size, need := SizeOf(old(state).active.entries), HEADER_SIZE + |data|;
              if size + need > maxBytes then r == Err(SegmentFull(size, maxBytes, need)) && state == old(state)
              else r == Ok(old(nextSequence)) && state == old(state).Added(data)
    {
      ActiveSize(disk.hash, disk.segments, state);
      AddedStored(disk.hash, disk.segments, state, data);
      var sequence := nextSequence;
      var written := active.Append(Encode(disk.hash, sequence, data));
      if written.Err? {
        return Err(written.error);
      }
      state := state.Added(data);
      nextSequence := sequence + 1;
      r := Ok(sequence);
    }

    /** Appends one entry. It fails exactly when the entry alone exceeds the segment cap, and then has still sealed the
        active segment and opened an empty one. */
    method Append(data: Bytes) returns (r: Result<nat>)
      requires Valid() && |data| < U32 && nextSequence < U64
      modifies this, active, disk`segments
      ensures Valid()
      ensures state == old(state).Append(data, maxBytes)
      ensures r == if HEADER_SIZE + |data| > maxBytes then Err(SegmentFull(0, maxBytes, HEADER_SIZE + |data|))
                   else Ok(old(nextSequence))
      ensures active == old(active) || fresh(active)
    {
      ActiveSize(disk.hash, disk.segments, state);
      AppendAsWrite(state, data, maxBytes);
      if active.WouldOverflow(HEADER_SIZE + |data|) {
        Rotate();
      }
      r := Write(data);
    }

    /** The files it refers to exist. */
    ghost predicate Readable()
      reads this, active, disk
    {
      active.id in disk.segments && forall id :: id in sealed ==> id in disk.segments
    }

    /** An intact log reads as exactly its surviving entries numbered `from` or higher. */
    lemma ReadsBack(from: nat)
      requires Valid()
      ensures Readable()
      ensures ReadAll(disk.hash, disk.segments, sealed + [active.id], from) == Ok(state.ReadFrom(from))
    {
      ReadsState(disk.hash, disk.segments, state, from);
      SplitIds(sealed, active.id, disk.segments);
    }

    /** The entries numbered `from` or higher, sealed segments first; the first unreadable entry is an error. */
    method ReadFrom(from: nat) returns (r: Result<seq<Entry>>)
      requires Readable()
      ensures r == ReadAll(disk.hash, disk.segments, sealed + [active.id], from)
    {
      var result := [];
      var i := 0;
      while i < |sealed|
        invariant 0 <= i <= |sealed|
        invariant ReadAll(disk.hash, disk.segments, sealed[..i], from) == Ok(result)
      {
        assert sealed[..i + 1][..i] == sealed[..i];
        var entries := ReadEntries(disk.hash, disk.segments[sealed[i]]);
        if entries.Err? {
          assert (sealed + [active.id])[..i + 1] == sealed[..i + 1];
          ReadAllStops(disk.hash, disk.segments, sealed + [active.id], i, from);
          return Err(entries.error);
        }
        var kept := Select(entries.value, from);
        result := result + kept;
        i := i + 1;
      }
      assert (sealed + [active.id])[..|sealed|] == sealed == sealed[..|sealed|];
      var entries := ReadEntries(disk.hash, disk.segments[active.id]);
      if entries.Err? {
        return Err(entries.error);
      }
      var kept := Select(entries.value, from);
      r := Ok(result + kept);
    }

    /** Everything past the checkpoint, which is everything as long as nothing has been applied. */
    method Recover() returns (r: Result<seq<Entry>>)
      requires Valid()
      ensures r == Ok(state.ReadFrom(checkpoint.sequence + 1))
      ensures checkpoint.sequence == 0 ==> r == Ok(state.Contents())
    {
      ReadsBack(checkpoint.sequence + 1);
      AllPastZero(state);
      r := ReadFrom(checkpoint.sequence + 1);
    }

    method Checkpoint(sequence: nat)
      requires Valid() && sequence < U64
      modifies checkpoint, disk`checkpoint
      ensures Valid()
      ensures checkpoint.sequence == if sequence > old(checkpoint.sequence) then sequence else old(checkpoint.sequence)
      ensures disk.checkpoint
              == if sequence > old(checkpoint.sequence) then Some(ToLe(sequence, 8)) else old(disk.checkpoint)
    {
      checkpoint.Advance(sequence);
    }

    lemma ValidIsReadable()
      requires Valid()
      ensures Readable() && NoneTwice(sealed)
    {
      SealedIds(state);
      ReadsBack(0);
      forall i, j | 0 <= i < j < |sealed|
        ensures sealed[i] != sealed[j]
      {
        assert state.Files()[i].id < state.Files()[j].id;
      }
    }

    /** Deletes the sealed segments whose highest number is below `before`. A segment that cannot be read ends this with
        its error; the files before it are gone by then, but not off the list. */
    method TruncateBefore(before: nat) returns (r: Result<()>)
      requires Readable() && NoneTwice(sealed)
      modifies this, disk`segments
      ensures active == old(active) && nextSequence == old(nextSequence)
      ensures match r
              case Ok(_) =>
                ReclaimedAll(disk.hash, old(disk.segments), disk.segments, old(sealed), before, sealed)
              case Err(e) =>
                sealed == old(sealed) && Stopped(disk.hash, old(disk.segments), disk.segments, sealed, before, e)
      ensures old(Valid()) ==> Valid() && r == Ok(()) && state == old(state).TruncateBefore(before)
    {
      ghost var intact := Valid();
      if intact {
        SealedIds(state);
        ActiveSize(disk.hash, disk.segments, state);
      }
      var deleted := DeleteBelow(disk, sealed, before, state);
      match deleted {
        case Err(e) => return Err(e);
        case Ok(remaining) =>
          if intact {
            TruncatedStored(disk.hash, state, before, disk.segments, remaining);
          }
          sealed := remaining;
      }
      if intact {
        state := state.TruncateBefore(before);
        ActiveSize(disk.hash, disk.segments, state);
      }
      r := Ok(());
    }
  }
}
