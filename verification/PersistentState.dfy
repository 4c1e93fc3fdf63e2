/** The durable term and vote: the state file and the object in front of it. */
module PersistentState {
  import opened Bytes
  import opened NodeModel

  function Encode(term: nat, votedFor: Option<NodeId>): Bytes {
    var s := if votedFor.Some? then votedFor.value else [];
    ToLe(term, 8) + ToLe(|s|, 4) + s
  }

  function Decode(bytes: Bytes): (nat, Option<NodeId>) {
    if |bytes| < 12 then (0, None)
    else
      var len := FromLe(bytes[8..12]);
      (FromLe(bytes[0..8]), if len == 0 || |bytes| < 12 + len then None else Some(bytes[12..12 + len]))
  }

  function Loaded(file: Option<Bytes>): (nat, Option<NodeId>) {
    if file.Some? then Decode(file.value) else (0, None)
  }

  /** A term and vote come back from the file exactly when the vote is not for the empty name. */
  lemma RoundTrip(term: nat, votedFor: Option<NodeId>)
    requires term < U64 && (votedFor.Some? ==> |votedFor.value| < U32)
    ensures Decode(Encode(term, votedFor)) == (term, votedFor) <==> votedFor != Some([])
  {
    var s := if votedFor.Some? then votedFor.value else [];
    var bytes := Encode(term, votedFor);
    Le64(term);
    Le32(|s|);
    assert bytes[0..8] == ToLe(term, 8);
    assert bytes[8..12] == ToLe(|s|, 4);
    assert bytes[12..12 + |s|] == s;
  }

  class StateFile {
    var contents: Option<Bytes>

    constructor ()
      ensures contents == None
    {
      contents := None;
    }
  }

  class PersistentState {
    const file: StateFile
    var currentTerm: nat
    var votedFor: Option<NodeId>

    /** Memory and disk agree: a crash now would change nothing. */
    ghost predicate Valid()
      reads this, file
    {
      Loaded(file.contents) == (currentTerm, votedFor)
    }

    constructor Open(file: StateFile)
      ensures this.file == file && Valid()
    {
      this.file := file;
      var (term, vote) := if file.contents.Some? then Decode(file.contents.value) else (0, None);
      currentTerm, votedFor := term, vote;
    }

    /** Replaces the file in one step, by writing a new one and renaming it. */
    method Persist()
      modifies file
      ensures file.contents == Some(Encode(currentTerm, votedFor))
    {
      file.contents := Some(Encode(currentTerm, votedFor));
    }

    /** Starts a new term, in which no vote is cast. */
    method AdvanceTerm(newTerm: nat)
      requires newTerm < U64
      modifies this, file
      ensures Valid() && currentTerm == newTerm && votedFor == None
    {
      currentTerm, votedFor := newTerm, None;
      Persist();
      RoundTrip(newTerm, None);
    }

    /** Casts the vote of this term. It survives a restart unless it is for the empty name. */
    method RecordVote(candidate: NodeId)
      requires currentTerm < U64 && |candidate| < U32
      modifies this, file
      ensures currentTerm == old(currentTerm) && votedFor == Some(candidate)
      ensures Valid() <==> candidate != []
    {
      votedFor := Some(candidate);
      Persist();
      RoundTrip(currentTerm, votedFor);
    }
  }
}
