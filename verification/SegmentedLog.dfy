/** The write-ahead log as a list of segments and the entries each holds: what every operation does to it. */
module SegmentedLog {
  import opened Bytes
  import opened EntryCodec

  /** One segment file: its id and the entries encoded in it. */
  datatype Chunk = Chunk(id: nat, entries: seq<Entry>)

  datatype WalState = WalState(sealed: seq<Chunk>, active: Chunk, next: nat) {
    function Files(): seq<Chunk> {
      sealed + [active]
    }

    function Contents(): seq<Entry> {
      Flat(sealed) + active.entries
    }

    /** Where an append of `need` bytes goes: the active segment, or a fresh one behind it. */
    function Rotated(need: nat, max: nat): WalState {
      if SizeOf(active.entries) + need > max then WalState(sealed + [active], Chunk(active.id + 1, []), next) else this
    }

    function Added(data: Bytes): WalState {
      WalState(sealed, Chunk(active.id, active.entries + [Entry(next, data)]), next + 1)
    }

    function Append(data: Bytes, max: nat): WalState {
      var need := HEADER_SIZE + |data|;
      var s := Rotated(need, max);
      if SizeOf(s.active.entries) + need > max then s else s.Added(data)
    }

    function TruncateBefore(before: nat): WalState {
      this.(sealed := Keep(sealed, before))
    }

    function Reopen(): WalState {
      this.(next := if Contents() == [] then 1 else Contents()[|Contents()| - 1].sequence + 1)
    }

    function ReadFrom(from: nat): seq<Entry> {
      From(Contents(), from)
    }

    /** Segment ids ascend, and sequence numbers are at least 1, go up by one and end just below `next`. */
    ghost predicate WellFormed() {
      && Ascending(Files())
      && Gapless(Contents(), next)
      && AllFit(Contents())
    }
  }

  const FRESH := WalState([], Chunk(1, []), 1)

  function Flat(files: seq<Chunk>): seq<Entry> {
    if files == [] then [] else files[0].entries + Flat(files[1..])
  }

  function SizeOf(entries: seq<Entry>): nat {
    if entries == [] then 0 else HEADER_SIZE + |entries[0].data| + SizeOf(entries[1..])
  }

  function MaxSequence(entries: seq<Entry>): nat {
    if entries == [] then 0
    else
      var m := MaxSequence(entries[1..]);
      if entries[0].sequence > m then entries[0].sequence else m
  }

  /** The sealed segments that survive `truncate_before`. */
  function Keep(sealed: seq<Chunk>, before: nat): seq<Chunk> {
    if sealed == [] then []
    else (if MaxSequence(sealed[0].entries) < before then [] else [sealed[0]]) + Keep(sealed[1..], before)
  }

  /** The entries numbered `from` or higher, in order. */
  function From(entries: seq<Entry>, from: nat): seq<Entry> {
    if entries == [] then []
    else (if entries[0].sequence >= from then [entries[0]] else []) + From(entries[1..], from)
  }

  ghost predicate Ascending(files: seq<Chunk>) {
    forall i, j :: 0 <= i < j < |files| ==> files[i].id < files[j].id
  }

  ghost predicate Gapless(entries: seq<Entry>, next: nat) {
    && |entries| < next
    && forall i :: 0 <= i < |entries| ==> entries[i].sequence == next - |entries| + i
  }

  // ---- Concatenation ----

  lemma {:induction false} FlatConcat(a: seq<Chunk>, b: seq<Chunk>)
    ensures Flat(a + b) == Flat(a) + Flat(b)
  {
    if a == [] {
      assert a + b == b;
    } else {
      FlatConcat(a[1..], b);
      assert (a + b)[1..] == a[1..] + b;
      assert a[0].entries + (Flat(a[1..]) + Flat(b)) == (a[0].entries + Flat(a[1..])) + Flat(b);
    }
  }

  lemma FlatSnoc(a: seq<Chunk>, c: Chunk)
    ensures Flat(a + [c]) == Flat(a) + c.entries
  {
    FlatConcat(a, [c]);
    assert [c][1..] == [];
    assert Flat([c]) == c.entries;
  }

  lemma {:induction false} SizeConcat(a: seq<Entry>, b: seq<Entry>)
    ensures SizeOf(a + b) == SizeOf(a) + SizeOf(b)
  {
    if a == [] {
      assert a + b == b;
    } else {
      SizeConcat(a[1..], b);
      assert (a + b)[1..] == a[1..] + b;
    }
  }

  lemma SizeSnoc(a: seq<Entry>, e: Entry)
    ensures SizeOf(a + [e]) == SizeOf(a) + HEADER_SIZE + |e.data|
  {
    SizeConcat(a, [e]);
  }

  /** A segment file is exactly as long as its encoded entries together. */
  lemma {:induction false} SizeIsLength(hash: Hash, entries: seq<Entry>)
    ensures |Stream(hash, entries)| == SizeOf(entries)
  {
    if entries != [] {
      SizeIsLength(hash, entries[1..]);
    }
  }

  lemma {:induction false} FromConcat(a: seq<Entry>, b: seq<Entry>, from: nat)
    ensures From(a + b, from) == From(a, from) + From(b, from)
  {
    if a == [] {
      assert a + b == b;
    } else {
      var head, rest := if a[0].sequence >= from then [a[0]] else [], From(a[1..], from);
      FromConcat(a[1..], b, from);
      assert (a + b)[1..] == a[1..] + b;
      assert From(a, from) == head + rest;
      assert head + (rest + From(b, from)) == (head + rest) + From(b, from);
    }
  }

  lemma {:induction false} FromNone(entries: seq<Entry>, from: nat)
    requires forall e :: e in entries ==> e.sequence < from
    ensures From(entries, from) == []
  {
    if entries != [] {
      FromNone(entries[1..], from);
    }
  }

  lemma {:induction false} FromAll(entries: seq<Entry>, from: nat)
    requires forall e :: e in entries ==> e.sequence >= from
    ensures From(entries, from) == entries
  {
    if entries != [] {
      FromAll(entries[1..], from);
    }
  }

  /** On a gapless log, reading from a number is cutting off a prefix. */
  lemma FromIsSuffix(entries: seq<Entry>, next: nat, from: nat)
    requires Gapless(entries, next)
    ensures var first := next - |entries|;
            var skip := if from <= first then 0 else if from >= next then |entries| else from - first;
            From(entries, from) == entries[skip..]
  {
    var first := next - |entries|;
    var skip := if from <= first then 0 else if from >= next then |entries| else from - first;
    var a, b := entries[..skip], entries[skip..];
    assert entries == a + b;
    assert From(a, from) == [] by {
      assert forall e :: e in a ==> e.sequence < from;
      FromNone(a, from);
    }
    assert From(b, from) == b by {
      assert forall e :: e in b ==> e.sequence >= from;
      FromAll(b, from);
    }
    FromConcat(a, b, from);
  }

  // ---- Append ----

  /** An append is refused exactly when the entry alone exceeds the cap, and it then leaves every entry and the
      numbering as they were; otherwise the entry comes last and carries the next number. */
  lemma AppendOutcome(s: WalState, data: Bytes, max: nat)
    ensures var t := s.Append(data, max);
            if HEADER_SIZE + |data| > max
            then t.next == s.next && t.Contents() == s.Contents()
            else t.next == s.next + 1 && t.Contents() == s.Contents() + [Entry(s.next, data)]
  {
    FlatSnoc(s.sealed, s.active);
  }

  /** A refused append always seals the active segment, even an empty one, and leaves an empty segment behind it. */
  lemma RefusedAppendRotates(s: WalState, data: Bytes, max: nat)
    requires HEADER_SIZE + |data| > max
    ensures s.Append(data, max) == WalState(s.sealed + [s.active], Chunk(s.active.id + 1, []), s.next)
  {}

  lemma RotatedAscends(s: WalState, need: nat, max: nat)
    requires Ascending(s.Files())
    ensures Ascending(s.Rotated(need, max).Files())
  {
    if SizeOf(s.active.entries) + need > max {
      var t := s.Rotated(need, max);
      assert t.Files() == s.Files() + [Chunk(s.active.id + 1, [])];
      assert s.Files()[|s.sealed|] == s.active;
    }
  }

  lemma AppendKeepsWellFormed(s: WalState, data: Bytes, max: nat)
    requires s.WellFormed() && |data| < U32 && s.next < U64
    ensures s.Append(data, max).WellFormed()
  {
    AppendOutcome(s, data, max);
    var need := HEADER_SIZE + |data|;
    RotatedAscends(s, need, max);
    var r, t := s.Rotated(need, max), s.Append(data, max);
    assert Ascending(t.Files()) by {
      assert forall i :: 0 <= i < |t.Files()| ==> t.Files()[i].id == r.Files()[i].id;
    }
  }

  // ---- Truncation ----

  lemma {:induction false} MaxIsLast(entries: seq<Entry>, next: nat)
    requires entries != [] && Gapless(entries, next)
    ensures MaxSequence(entries) == next - 1
  {
    if |entries| > 1 {
      MaxIsLast(entries[1..], next);
    }
  }

  lemma {:induction false} KeepAll(sealed: seq<Chunk>, before: nat)
    requires forall e :: e in Flat(sealed) ==> e.sequence >= before
    ensures Flat(Keep(sealed, before)) == Flat(sealed)
  {
    if sealed != [] {
      var c, kept := sealed[0], Keep(sealed[1..], before);
      KeepAll(sealed[1..], before);
      if MaxSequence(c.entries) < before {
        assert c.entries == [] by {
          if c.entries != [] {
            assert c.entries[0] in Flat(sealed);
          }
        }
        assert Keep(sealed, before) == kept;
      } else {
        FlatConcat([c], kept);
        assert Flat([c]) == c.entries;
        assert Keep(sealed, before) == [c] + kept;
      }
    }
  }

  lemma GaplessParts(a: seq<Entry>, b: seq<Entry>, next: nat)
    requires Gapless(a + b, next)
    ensures Gapless(a, next - |b|) && Gapless(b, next)
  {
    assert forall i :: 0 <= i < |a| ==> (a + b)[i] == a[i];
    assert forall i :: 0 <= i < |b| ==> (a + b)[|a| + i] == b[i];
  }

  /** Dropping segments drops a prefix of the entries, all of them numbered below the bound. */
  lemma {:induction false} KeepIsSuffix(sealed: seq<Chunk>, next: nat, before: nat) returns (n: nat)
    requires Gapless(Flat(sealed), next)
    ensures n <= |Flat(sealed)|
    ensures Flat(Keep(sealed, before)) == Flat(sealed)[n..]
    ensures n > 0 ==> next - |Flat(sealed)| + n <= before
  {
    n := 0;
    if sealed != [] {
      var c, rest := sealed[0].entries, Flat(sealed[1..]);
      GaplessParts(c, rest, next);
      if MaxSequence(c) < before {
        n := KeepIsSuffix(sealed[1..], next, before);
        if c != [] {
          MaxIsLast(c, next - |rest|);
          n := |c| + n;
        }
        assert Keep(sealed, before) == Keep(sealed[1..], before);
      } else {
        FlatConcat([sealed[0]], Keep(sealed[1..], before));
        assert Flat([sealed[0]]) == c;
        if c != [] {
          MaxIsLast(c, next - |rest|);
          KeepAll(sealed[1..], before);
        } else {
          KeepAll(sealed[1..], before);
        }
      }
    }
  }

  /** `truncate_before(b)` removes only entries below `b`; the survivors are a contiguous suffix, and reading from
      `b` or later sees no difference. */
  lemma TruncateLosesNothing(s: WalState, before: nat) returns (n: nat)
    requires s.WellFormed()
    ensures n <= |s.Contents()|
    ensures s.TruncateBefore(before).Contents() == s.Contents()[n..]
    ensures forall i :: 0 <= i < n ==> s.Contents()[i].sequence < before
    ensures forall k :: k >= before ==> s.TruncateBefore(before).ReadFrom(k) == s.ReadFrom(k)
  {
    GaplessParts(Flat(s.sealed), s.active.entries, s.next);
    n := KeepIsSuffix(s.sealed, s.next - |s.active.entries|, before);
    var es := s.Contents();
    assert s.TruncateBefore(before).Contents() == es[n..];
    forall k | k >= before
      ensures s.TruncateBefore(before).ReadFrom(k) == s.ReadFrom(k)
    {
      FromNone(es[..n], k);
      FromConcat(es[..n], es[n..], k);
      assert es == es[..n] + es[n..];
    }
  }

  lemma {:induction false} KeepIsSublist(sealed: seq<Chunk>, before: nat)
    ensures forall c :: c in Keep(sealed, before) <==> c in sealed && MaxSequence(c.entries) >= before
    ensures Ascending(sealed) ==> Ascending(Keep(sealed, before))
  {
    if sealed != [] {
      KeepIsSublist(sealed[1..], before);
      if Ascending(sealed) {
        assert Ascending(sealed[1..]);
        var kept := Keep(sealed[1..], before);
        assert forall c :: c in kept ==> sealed[0].id < c.id;
      }
    }
  }

  lemma TruncateAscends(s: WalState, before: nat)
    requires Ascending(s.Files())
    ensures Ascending(s.TruncateBefore(before).Files())
  {
    assert s.Files()[..|s.sealed|] == s.sealed;
    assert Ascending(s.sealed);
    KeepIsSublist(s.sealed, before);
    assert s.Files()[|s.sealed|] == s.active;
    assert forall c :: c in s.sealed ==> c.id < s.active.id;
  }

  lemma TruncateKeepsWellFormed(s: WalState, before: nat)
    requires s.WellFormed()
    ensures s.TruncateBefore(before).WellFormed()
  {
    var n := TruncateLosesNothing(s, before);
    assert Gapless(s.Contents()[n..], s.next);
    TruncateAscends(s, before);
  }

  // ---- Reopening ----

  /** Reopening keeps the entries, and restores the numbering exactly when an entry survives on disk or none was
      ever appended. */
  lemma ReopenRestoresNext(s: WalState)
    requires s.WellFormed()
    ensures s.Reopen().WellFormed()
    ensures s.Reopen().Contents() == s.Contents()
    ensures s.Reopen().next == s.next <==> s.Contents() != [] || s.next == 1
  {
    assert s.Reopen().Files() == s.Files();
  }

  /** The numbering does restart in a log whose last entries sat in a segment that an oversized append had sealed:
      the number 1 is given out twice. */
  lemma NumbersAreReused(small: Bytes, big: Bytes, max: nat)
    requires HEADER_SIZE + |small| <= max < HEADER_SIZE + |big|
    ensures var s := FRESH.Append(small, max);
            s.Contents() == [Entry(1, small)]
            && s.Append(big, max).TruncateBefore(2).Reopen().Append(small, max).Contents() == [Entry(1, small)]
            && s.Append(big, max).TruncateBefore(2).next == 2
  {
    var s := FRESH.Append(small, max);
    AppendOutcome(FRESH, small, max);
    AppendOutcome(s, big, max);
    SizeSnoc([], Entry(1, small));
    assert s.active.entries == [Entry(1, small)];
    var t := s.Append(big, max);
    assert t == WalState([s.active], Chunk(2, []), 2);
    MaxIsLast(s.active.entries, 2);
    assert Keep([s.active], 2) == Keep([s.active][1..], 2) == [];
    AppendOutcome(t.TruncateBefore(2).Reopen(), small, max);
  }

  /** Recovery re-reads everything past the checkpoint: truncating up to it changes nothing, now or after reopening. */
  lemma TruncateKeepsPending(s: WalState, checkpoint: nat, before: nat)
    requires s.WellFormed() && before <= checkpoint + 1
    ensures s.TruncateBefore(before).ReadFrom(checkpoint + 1) == s.ReadFrom(checkpoint + 1)
    ensures s.TruncateBefore(before).Reopen().ReadFrom(checkpoint + 1) == s.Reopen().ReadFrom(checkpoint + 1)
  {
    var _ := TruncateLosesNothing(s, before);
  }

  // ---- Whole runs ----

  datatype Op = DoAppend(data: Bytes) | DoTruncate(before: nat) | DoReopen

  function Apply(s: WalState, op: Op, max: nat): WalState {
    match op
    case DoAppend(data) => s.Append(data, max)
    case DoTruncate(before) => s.TruncateBefore(before)
    case DoReopen => s.Reopen()
  }

  function Run(ops: seq<Op>, max: nat): WalState {
    if ops == [] then FRESH else Apply(Run(ops[..|ops| - 1], max), ops[|ops| - 1], max)
  }

  function AcceptedBy(op: Op, max: nat): seq<Bytes> {
    if op.DoAppend? && HEADER_SIZE + |op.data| <= max then [op.data] else []
  }

  /** The payloads that `append` accepted, in order. */
  function Accepted(ops: seq<Op>, max: nat): seq<Bytes> {
    if ops == [] then [] else Accepted(ops[..|ops| - 1], max) + AcceptedBy(ops[|ops| - 1], max)
  }

  /** The highest bound truncated to. */
  function Bound(ops: seq<Op>): nat {
    if ops == [] then 0
    else
      var before, op := Bound(ops[..|ops| - 1]), ops[|ops| - 1];
      if op.DoTruncate? && op.before > before then op.before else before
  }

  /** No reopening found the log empty after something had been appended. */
  ghost predicate NeverReset(ops: seq<Op>, max: nat) {
    forall i :: 0 <= i < |ops| && ops[i].DoReopen? ==>
      Run(ops[..i], max).Contents() != [] || Accepted(ops[..i], max) == []
  }

  ghost predicate Storable(ops: seq<Op>) {
    |ops| < U64 - 1 && forall op :: op in ops && op.DoAppend? ==> |op.data| < U32
  }

  lemma {:induction false} RunIsWellFormed(ops: seq<Op>, max: nat)
    requires Storable(ops)
    ensures Run(ops, max).WellFormed() && Run(ops, max).next <= |ops| + 1
  {
    if ops != [] {
      var prefix, op := ops[..|ops| - 1], ops[|ops| - 1];
      RunIsWellFormed(prefix, max);
      var s := Run(prefix, max);
      match op {
        case DoAppend(data) =>
          AppendKeepsWellFormed(s, data, max);
          AppendOutcome(s, data, max);
        case DoTruncate(before) =>
          TruncateKeepsWellFormed(s, before);
        case DoReopen =>
          ReopenRestoresNext(s);
      }
    }
  }

  /** The entries numbered `lost + 1` and up, of the accepted payloads. */
  ghost predicate Survives(contents: seq<Entry>, accepted: seq<Bytes>, lost: nat) {
    && lost + |contents| == |accepted|
    && forall i :: 0 <= i < |contents| ==> contents[i] == Entry(lost + i + 1, accepted[lost + i])
  }

  lemma StepHoldsAccepted(s: WalState, op: Op, max: nat, accepted: seq<Bytes>, lost: nat) returns (lost': nat)
    requires s.WellFormed() && s.next == |accepted| + 1 && Survives(s.Contents(), accepted, lost)
    requires op.DoReopen? ==> s.Contents() != [] || accepted == []
    ensures Apply(s, op, max).next == |accepted + AcceptedBy(op, max)| + 1
    ensures Survives(Apply(s, op, max).Contents(), accepted + AcceptedBy(op, max), lost')
    ensures lost' == lost || (op.DoTruncate? && lost' < op.before)
  {
    lost' := lost;
    match op {
      case DoAppend(data) =>
        AppendOutcome(s, data, max);
      case DoTruncate(before) =>
        var n := TruncateLosesNothing(s, before);
        if n > 0 {
          assert s.Contents()[n - 1].sequence < before;
        }
        lost' := lost + n;
        assert accepted + [] == accepted;
      case DoReopen =>
        ReopenRestoresNext(s);
        assert accepted + [] == accepted;
    }
  }

  /** In any run of appends, rotations, refused appends, truncations and reopenings that never resets the numbering,
      the log holds a suffix of the accepted payloads, numbered from 1 without gaps, and only truncation loses any. */
  lemma {:induction false} RunHoldsAccepted(ops: seq<Op>, max: nat) returns (lost: nat)
    requires Storable(ops) && NeverReset(ops, max)
    ensures Run(ops, max).next == |Accepted(ops, max)| + 1
    ensures Survives(Run(ops, max).Contents(), Accepted(ops, max), lost)
    ensures lost == 0 || lost < Bound(ops)
  {
    lost := 0;
    if ops != [] {
      var prefix, op := ops[..|ops| - 1], ops[|ops| - 1];
      assert NeverReset(prefix, max) by {
        assert forall i :: 0 <= i < |prefix| ==> prefix[..i] == ops[..i];
      }
      lost := RunHoldsAccepted(prefix, max);
      RunIsWellFormed(prefix, max);
      lost := StepHoldsAccepted(Run(prefix, max), op, max, Accepted(prefix, max), lost);
    }
  }

  /** The accepted payloads numbered `k` and up, as entries. */
  function Tail(accepted: seq<Bytes>, k: nat): seq<Entry>
    requires 1 <= k <= |accepted| + 1
  {
    seq(|accepted| + 1 - k, i requires 0 <= i < |accepted| + 1 - k => Entry(k + i, accepted[k + i - 1]))
  }

  lemma SuffixRead(contents: seq<Entry>, accepted: seq<Bytes>, lost: nat, k: nat)
    requires Survives(contents, accepted, lost) && lost < k <= |accepted| + 1
    ensures From(contents, k) == Tail(accepted, k)
  {
    FromIsSuffix(contents, |accepted| + 1, k);
  }

  /** Hence reading from anywhere at or past every truncation bound returns, in order, every accepted entry so
      numbered. */
  lemma ReadsFindEverything(ops: seq<Op>, max: nat, k: nat)
    requires Storable(ops) && NeverReset(ops, max)
    requires Bound(ops) <= k && 1 <= k <= |Accepted(ops, max)| + 1
    ensures Run(ops, max).ReadFrom(k) == Tail(Accepted(ops, max), k)
  {
    var lost := RunHoldsAccepted(ops, max);
    RunIsWellFormed(ops, max);
    SuffixRead(Run(ops, max).Contents(), Accepted(ops, max), lost, k);
  }

  // ---- How full segments are ----

  ghost predicate Packed(files: seq<Chunk>, max: nat) {
    && (forall i :: 0 <= i < |files| ==> SizeOf(files[i].entries) <= max)
    && (forall i :: 0 < i < |files| ==> SizeOf(files[i - 1].entries) + SizeOf(files[i].entries) > max)
  }

  lemma AppendKeepsPacked(s: WalState, data: Bytes, max: nat)
    requires Packed(s.Files(), max) && HEADER_SIZE + |data| <= max
    ensures Packed(s.Append(data, max).Files(), max)
  {
    var need, e := HEADER_SIZE + |data|, Entry(s.next, data);
    var t := s.Append(data, max);
    assert s.Files()[|s.sealed|] == s.active;
    if SizeOf(s.active.entries) + need > max {
      SizeSnoc([], e);
      assert t.Files() == s.Files() + [Chunk(s.active.id + 1, [] + [e])];
    } else {
      SizeSnoc(s.active.entries, e);
      assert t.Files() == s.Files()[|s.sealed| := Chunk(s.active.id, s.active.entries + [e])];
    }
  }

  lemma PackedParts(files: seq<Chunk>, n: nat, max: nat)
    requires Packed(files, max) && n <= |files|
    ensures Packed(files[n..], max)
  {}

  /** In a packed log a segment that survives truncation keeps all later ones. */
  lemma {:induction false} PackedKeepAll(sealed: seq<Chunk>, next: nat, before: nat, max: nat)
    requires Packed(sealed, max) && Gapless(Flat(sealed), next)
    requires sealed != [] && MaxSequence(sealed[0].entries) >= before
    ensures Keep(sealed, before) == sealed
  {
    var c, rest := sealed[0].entries, Flat(sealed[1..]);
    GaplessParts(c, rest, next);
    if |sealed| > 1 {
      var d, tail := sealed[1].entries, Flat(sealed[1..][1..]);
      assert d != [] by {
        assert SizeOf(sealed[0].entries) + SizeOf(sealed[1].entries) > max;
      }
      GaplessParts(d, tail, next);
      MaxIsLast(d, next - |tail|);
      if c != [] {
        MaxIsLast(c, next - |rest|);
      }
      PackedParts(sealed, 1, max);
      PackedKeepAll(sealed[1..], next, before, max);
    }
  }

  /** In a packed log the surviving segments are the most recent ones. */
  lemma {:induction false} PackedKeepIsSuffix(sealed: seq<Chunk>, next: nat, before: nat, max: nat) returns (n: nat)
    requires Packed(sealed, max) && Gapless(Flat(sealed), next)
    ensures n <= |sealed| && Keep(sealed, before) == sealed[n..]
  {
    n := 0;
    if sealed != [] {
      if MaxSequence(sealed[0].entries) < before {
        GaplessParts(sealed[0].entries, Flat(sealed[1..]), next);
        PackedParts(sealed, 1, max);
        n := PackedKeepIsSuffix(sealed[1..], next, before, max);
        n := n + 1;
      } else {
        PackedKeepAll(sealed, next, before, max);
      }
    }
  }

  lemma TruncateKeepsPacked(s: WalState, before: nat, max: nat)
    requires s.WellFormed() && Packed(s.Files(), max)
    ensures Packed(s.TruncateBefore(before).Files(), max)
  {
    assert s.Files()[..|s.sealed|] == s.sealed;
    GaplessParts(Flat(s.sealed), s.active.entries, s.next);
    var n := PackedKeepIsSuffix(s.sealed, s.next - |s.active.entries|, before, max);
    assert s.TruncateBefore(before).Files() == s.Files()[n..];
    PackedParts(s.Files(), n, max);
  }

  function Total(files: seq<Chunk>): nat {
    if files == [] then 0 else Total(files[..|files| - 1]) + SizeOf(files[|files| - 1].entries)
  }

  lemma {:induction false} PackedTotal(files: seq<Chunk>, max: nat)
    requires Packed(files, max) && files != []
    ensures (|files| - 1) * (max + 1) + SizeOf(files[0].entries) + SizeOf(files[|files| - 1].entries)
            <= 2 * Total(files)
  {
    if |files| > 1 {
      var prefix := files[..|files| - 1];
      PackedTotal(prefix, max);
      assert (|files| - 1) * (max + 1) == (|prefix| - 1) * (max + 1) + max + 1;
    }
  }

  ghost predicate NeverRefused(ops: seq<Op>, max: nat) {
    forall op :: op in ops && op.DoAppend? ==> HEADER_SIZE + |op.data| <= max
  }

  lemma StepKeepsPacked(s: WalState, op: Op, max: nat)
    requires s.WellFormed() && Packed(s.Files(), max)
    requires op.DoAppend? ==> HEADER_SIZE + |op.data| <= max
    ensures Packed(Apply(s, op, max).Files(), max)
  {
    match op {
      case DoAppend(data) => AppendKeepsPacked(s, data, max);
      case DoTruncate(before) => TruncateKeepsPacked(s, before, max);
      case DoReopen => assert s.Reopen().Files() == s.Files();
    }
  }

  lemma {:induction false} RunIsPacked(ops: seq<Op>, max: nat)
    requires Storable(ops) && NeverRefused(ops, max)
    ensures Packed(Run(ops, max).Files(), max)
  {
    if ops != [] {
      var prefix, op := ops[..|ops| - 1], ops[|ops| - 1];
      assert op in ops;
      RunIsPacked(prefix, max);
      RunIsWellFormed(prefix, max);
      StepKeepsPacked(Run(prefix, max), op, max);
    }
  }

  /** With a fixed cap and no refused append every segment stays within the cap, any two neighbours exceed it
      together, and so `n` segments hold more than `(n - 1) * max / 2` bytes. */
  lemma SegmentsAreHalfFull(ops: seq<Op>, max: nat)
    requires Storable(ops) && NeverRefused(ops, max)
    ensures Packed(Run(ops, max).Files(), max)
    ensures var files := Run(ops, max).Files();
            |files| >= 2 ==> (|files| - 1) * max < 2 * Total(files)
  {
    RunIsPacked(ops, max);
    var files := Run(ops, max).Files();
    PackedTotal(files, max);
    assert (|files| - 1) * (max + 1) == (|files| - 1) * max + |files| - 1;
  }
}
