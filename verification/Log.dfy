/** The abstract Raft log: what `RaftLog` stands for once its backing files are set aside. */
module Log {
  import opened Bytes

  /** One entry of the replicated log; `index` is its 1-based position. */
  datatype LogEntry = LogEntry(term: nat, index: nat, data: Bytes)

  /** A log whose first `snapshotIndex` entries were compacted away (0: none were). */
  datatype Log = Log(snapshotIndex: nat, snapshotTerm: nat, entries: seq<LogEntry>) {

    /** `entries[0]` holds index `snapshotIndex + 1`, and indices go up by one. */
    ghost predicate Valid() {
      forall i :: 0 <= i < |entries| ==> entries[i].index == snapshotIndex + 1 + i
    }

    function LastIndex(): nat {
      snapshotIndex + |entries|
    }

    function LastTerm(): nat {
      if entries != [] then entries[|entries| - 1].term else snapshotTerm
    }

    function TermAt(index: nat): Option<nat> {
      if index == 0 then None
      else if index == snapshotIndex then Some(snapshotTerm)
      else if index < snapshotIndex then None
      else
        var offset := index - snapshotIndex - 1;
        if offset < |entries| then Some(entries[offset].term) else None
    }

    function EntriesFrom(from: nat): seq<LogEntry> {
      var start := if from > snapshotIndex + 1 then from else snapshotIndex + 1;
      if start > LastIndex() then [] else entries[start - snapshotIndex - 1..]
    }

    function FirstIndexOfTerm(term: nat): Option<nat> {
      if term == snapshotTerm && snapshotIndex > 0 then Some(snapshotIndex) else FindTerm(entries, term)
    }

    function Append(term: nat, data: Bytes): Log {
      this.(entries := entries + [LogEntry(term, LastIndex() + 1, data)])
    }

    /** Whether `truncate_from` does anything at all. */
    predicate Truncates(from: nat) {
      snapshotIndex < from <= LastIndex()
    }

    function TruncateFrom(from: nat): Log {
      if Truncates(from) then this.(entries := entries[..from - snapshotIndex - 1]) else this
    }

    function Compact(index: nat, term: nat): Log {
      if index <= snapshotIndex then this
      else
        var trim := (if index < LastIndex() then index else LastIndex()) - snapshotIndex;
        Log(index, term, if trim >= |entries| then [] else entries[trim..])
    }

    function InstallSnapshot(index: nat, term: nat): Log {
      if index <= snapshotIndex then this else Log(index, term, After(entries, index))
    }
  }

  const EMPTY := Log(0, 0, [])

  /** The index of the first entry of the given term. */
  function FindTerm(entries: seq<LogEntry>, term: nat): Option<nat> {
    if entries == [] then None
    else if entries[0].term == term then Some(entries[0].index)
    else FindTerm(entries[1..], term)
  }

  /** `retain(|e| e.index > index)` */
  function After(entries: seq<LogEntry>, index: nat): seq<LogEntry> {
    if entries == [] then []
    else (if entries[0].index > index then [entries[0]] else []) + After(entries[1..], index)
  }

  /** `filter(|e| e.index <= index)` */
  function UpTo(entries: seq<LogEntry>, index: nat): seq<LogEntry> {
    if entries == [] then []
    else (if entries[0].index <= index then [entries[0]] else []) + UpTo(entries[1..], index)
  }

  /** Entries numbered consecutively after `base`. */
  ghost predicate Numbered(entries: seq<LogEntry>, base: nat) {
    forall i :: 0 <= i < |entries| ==> entries[i].index == base + 1 + i
  }

  /** On consecutively numbered entries both filters are plain slices. */
  lemma {:induction false} FiltersAreSlices(entries: seq<LogEntry>, base: nat, index: nat)
    requires Numbered(entries, base)
    requires index >= base
    ensures After(entries, index) == if index - base <= |entries| then entries[index - base..] else []
    ensures UpTo(entries, index) == if index - base <= |entries| then entries[..index - base] else entries
  {
    if entries != [] {
      if index == base {
        AllAfter(entries, base);
      } else {
        FiltersAreSlices(entries[1..], base + 1, index);
      }
    }
  }

  lemma {:induction false} AllAfter(entries: seq<LogEntry>, base: nat)
    requires Numbered(entries, base)
    ensures After(entries, base) == entries
    ensures UpTo(entries, base) == []
  {
    if entries != [] {
      assert Numbered(entries[1..], base + 1);
      AllAbove(entries[1..], base, base + 1);
    }
  }

  lemma {:induction false} AllAbove(entries: seq<LogEntry>, index: nat, base: nat)
    requires Numbered(entries, base)
    requires index <= base
    ensures After(entries, index) == entries
    ensures UpTo(entries, index) == []
  {
    if entries != [] {
      AllAbove(entries[1..], index, base + 1);
    }
  }

  // ---- The offset arithmetic agrees with a search by index ----

  /** The naive reading of "the entry at `index`": search for it. */
  ghost predicate Holds(log: Log, index: nat, e: LogEntry) {
    e in log.entries && e.index == index
  }

  /** Every mutator keeps `entries[i].index == snapshotIndex + 1 + i`. */
  lemma MutatorsKeepValid(log: Log, index: nat, term: nat, data: Bytes)
    requires log.Valid()
    ensures log.Append(term, data).Valid()
    ensures log.TruncateFrom(index).Valid()
    ensures log.Compact(index, term).Valid()
    ensures log.InstallSnapshot(index, term).Valid()
  {
    if index > log.snapshotIndex {
      FiltersAreSlices(log.entries, log.snapshotIndex, index);
    }
  }

  /** `last_index` is the greatest index the log knows of, and `last_term` its term. */
  lemma LastIsGreatest(log: Log)
    requires log.Valid()
    ensures forall i: nat :: log.TermAt(i).Some? ==> i <= log.LastIndex()
    ensures log.LastIndex() > 0 ==> log.TermAt(log.LastIndex()) == Some(log.LastTerm())
    ensures log.LastIndex() == 0 <==> forall i: nat :: log.TermAt(i) == None
  {
    if log.LastIndex() > 0 {
      assert log.TermAt(log.LastIndex()).Some?;
    }
  }

  /** `term_at` finds exactly the term of the entry numbered `index`, or of the snapshot point. */
  lemma TermAtIsSearch(log: Log, index: nat, term: nat)
    requires log.Valid()
    ensures log.TermAt(index) == Some(term) <==>
              (index == log.snapshotIndex && index > 0 && term == log.snapshotTerm)
              || exists e :: Holds(log, index, e) && e.term == term
    ensures log.TermAt(index) == None <==>
              (index != log.snapshotIndex || index == 0) && forall e :: !Holds(log, index, e)
  {
    if log.snapshotIndex < index <= log.LastIndex() {
      assert Holds(log, index, log.entries[index - log.snapshotIndex - 1]);
    }
  }

  /** `entries_from` returns, in order, exactly the retained entries numbered `from` or higher. */
  lemma EntriesFromIsSearch(log: Log, from: nat)
    requires log.Valid()
    ensures log.EntriesFrom(from) == After(log.entries, if from == 0 then 0 else from - 1)
    ensures forall e :: e in log.EntriesFrom(from) <==> e in log.entries && e.index >= from
  {
    if from <= log.snapshotIndex + 1 {
      AllAbove(log.entries, if from == 0 then 0 else from - 1, log.snapshotIndex);
    } else {
      FiltersAreSlices(log.entries, log.snapshotIndex, from - 1);
      var es := log.EntriesFrom(from);
      forall e | e in log.entries && e.index >= from
        ensures e in es
      {
        var i :| 0 <= i < |log.entries| && log.entries[i] == e;
        assert es[i - (from - log.snapshotIndex - 1)] == e;
      }
    }
  }

  /** `first_index_of_term` is the least index that carries the term, the snapshot point included. */
  lemma FirstIndexIsLeast(log: Log, term: nat)
    requires log.Valid()
    ensures log.FirstIndexOfTerm(term) == None <==> forall i :: log.TermAt(i) != Some(term)
    ensures forall i :: log.FirstIndexOfTerm(term) == Some(i) ==>
              log.TermAt(i) == Some(term) && forall j :: j < i ==> log.TermAt(j) != Some(term)
  {
    FindTermIsLeast(log.entries, log.snapshotIndex, term);
    var found := FindTerm(log.entries, term);
    if found == None {
      forall i: nat
        ensures log.TermAt(i) == Some(term) <==> i == log.snapshotIndex > 0 && term == log.snapshotTerm
      {
        if i > log.snapshotIndex && i - log.snapshotIndex - 1 < |log.entries| {
          assert log.entries[i - log.snapshotIndex - 1].term != term;
        }
      }
      if log.snapshotIndex > 0 && term == log.snapshotTerm {
        assert log.TermAt(log.snapshotIndex) == Some(term);
      }
    } else {
      assert log.TermAt(found.value) == Some(term);
      if log.snapshotIndex > 0 && term == log.snapshotTerm {
        assert log.TermAt(log.snapshotIndex) == Some(term);
      }
    }
  }

  lemma {:induction false} FindTermIsLeast(entries: seq<LogEntry>, base: nat, term: nat)
    requires Numbered(entries, base)
    ensures FindTerm(entries, term) == None <==> forall i :: 0 <= i < |entries| ==> entries[i].term != term
    ensures FindTerm(entries, term).Some? ==>
              var k := FindTerm(entries, term).value - base - 1;
              && 0 <= k < |entries|
              && entries[k].term == term
              && forall i :: 0 <= i < k ==> entries[i].term != term
  {
    if entries != [] && entries[0].term != term {
      FindTermIsLeast(entries[1..], base + 1, term);
      assert forall i :: 0 < i < |entries| ==> entries[i] == entries[1..][i - 1];
    }
  }
}
