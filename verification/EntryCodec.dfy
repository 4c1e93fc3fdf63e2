/** The on-disk entry format, and reading a whole segment file back. */
module EntryCodec {
  import opened Bytes

  datatype Entry = Entry(sequence: nat, data: Bytes)

  datatype WalError =
    | UnexpectedEof(offset: nat)
    | ChecksumMismatch(offset: nat, stored: nat, computed: nat)
    | SegmentFull(size: nat, max: nat, entry: nat)
    | AlreadyExists(id: nat)

  datatype Result<+T> = Ok(value: T) | Err(error: WalError)

  type u32 = x: nat | x < U32

  /** CRC-32, of which only this is used: it is a function of the payload. */
  type Hash = Bytes -> u32

  const HEADER_SIZE: nat := 16

  predicate Fits(e: Entry) {
    e.sequence < U64 && |e.data| < U32
  }

  function Encode(hash: Hash, sequence: nat, data: Bytes): (bs: Bytes)
    ensures |bs| == HEADER_SIZE + |data|
  {
    ToLe(sequence, 8) + ToLe(|data|, 4) + ToLe(hash(data), 4) + data
  }

  /** The entry at the start of `buf` and its length; `offset` only locates errors. */
  function Decode(hash: Hash, buf: Bytes, offset: nat): (r: Result<(Entry, nat)>)
    ensures r.Ok? ==> HEADER_SIZE <= r.value.1 <= |buf|
  {
    if |buf| < HEADER_SIZE then Err(UnexpectedEof(offset))
    else
      var sequence := FromLe(buf[0..8]);
      var len := FromLe(buf[8..12]);
      var stored := FromLe(buf[12..16]);
      var total := HEADER_SIZE + len;
      if |buf| < total then Err(UnexpectedEof(offset))
      else
        var data := buf[HEADER_SIZE..total];
        if stored != hash(data) then Err(ChecksumMismatch(offset, stored, hash(data)))
        else Ok((Entry(sequence, data), total))
  }

  /** Everything from the start of `raw` on; the first error is the result. */
  function Parse(hash: Hash, raw: Bytes, offset: nat): Result<seq<Entry>>
    decreases |raw|
  {
    if raw == [] then Ok([])
    else
      match Decode(hash, raw, offset)
      case Err(e) => Err(e)
      case Ok((entry, consumed)) =>
        match Parse(hash, raw[consumed..], offset + consumed)
        case Err(e) => Err(e)
        case Ok(entries) => Ok([entry] + entries)
  }

  function Prepend(entries: seq<Entry>, rest: Result<seq<Entry>>): Result<seq<Entry>> {
    match rest
    case Err(e) => Err(e)
    case Ok(es) => Ok(entries + es)
  }

  lemma PrependOnce(entries: seq<Entry>, e: Entry, rest: Result<seq<Entry>>)
    ensures Prepend(entries, Prepend([e], rest)) == Prepend(entries + [e], rest)
  {
    assert rest.Ok? ==> entries + ([e] + rest.value) == (entries + [e]) + rest.value;
  }

  method ReadEntries(hash: Hash, raw: Bytes) returns (r: Result<seq<Entry>>)
    ensures r == Parse(hash, raw, 0)
  {
    var entries := [];
    var offset := 0;
    assert raw[0..] == raw;
    assert Prepend([], Parse(hash, raw, 0)) == Parse(hash, raw, 0) by {
      var whole := Parse(hash, raw, 0);
      assert whole.Ok? ==> [] + whole.value == whole.value;
    }
    while offset < |raw|
      invariant offset <= |raw|
      invariant Prepend(entries, Parse(hash, raw[offset..], offset)) == Parse(hash, raw, 0)
    {
      var d := Decode(hash, raw[offset..], offset);
      if d.Err? {
        return Err(d.error);
      }
      var (entry, consumed) := d.value;
      assert raw[offset..][consumed..] == raw[offset + consumed..];
      PrependOnce(entries, entry, Parse(hash, raw[offset + consumed..], offset + consumed));
      entries := entries + [entry];
      offset := offset + consumed;
    }
    assert entries + [] == entries;
    r := Ok(entries);
  }

  // ---- What was written is what is read ----

  /** The bytes of a segment that holds these entries. */
  function Stream(hash: Hash, entries: seq<Entry>): Bytes {
    if entries == [] then [] else Encode(hash, entries[0].sequence, entries[0].data) + Stream(hash, entries[1..])
  }

  ghost predicate AllFit(entries: seq<Entry>) {
    forall e :: e in entries ==> Fits(e)
  }

  lemma {:induction false} StreamConcat(hash: Hash, a: seq<Entry>, b: seq<Entry>)
    ensures Stream(hash, a + b) == Stream(hash, a) + Stream(hash, b)
  {
    if a == [] {
      assert a + b == b;
    } else {
      StreamConcat(hash, a[1..], b);
      assert (a + b)[1..] == a[1..] + b;
    }
  }

  /** An entry comes back from its encoding, whatever bytes follow. */
  lemma DecodeInverts(hash: Hash, e: Entry, rest: Bytes, offset: nat)
    requires Fits(e)
    ensures var buf := Encode(hash, e.sequence, e.data) + rest;
            && Decode(hash, buf, offset) == Ok((e, HEADER_SIZE + |e.data|))
            && buf[HEADER_SIZE + |e.data|..] == rest
  {
    var buf := Encode(hash, e.sequence, e.data) + rest;
    Le64(e.sequence);
    Le32(|e.data|);
    Le32(hash(e.data));
    assert buf[0..8] == ToLe(e.sequence, 8);
    assert buf[8..12] == ToLe(|e.data|, 4);
    assert buf[12..16] == ToLe(hash(e.data), 4);
    assert buf[HEADER_SIZE..HEADER_SIZE + |e.data|] == e.data;
  }

  /** An encoding cut short is recognised as such. */
  lemma DecodeCut(hash: Hash, e: Entry, cut: nat, offset: nat)
    requires Fits(e) && cut < HEADER_SIZE + |e.data|
    ensures Decode(hash, Encode(hash, e.sequence, e.data)[..cut], offset) == Err(UnexpectedEof(offset))
  {
    var whole := Encode(hash, e.sequence, e.data);
    if cut >= HEADER_SIZE {
      Le32(|e.data|);
      assert whole[..cut][8..12] == whole[8..12] == ToLe(|e.data|, 4);
    }
  }

  /** How many entries are complete within the first `cut` bytes. */
  function Complete(hash: Hash, entries: seq<Entry>, cut: nat): (k: nat)
    ensures k <= |entries|
  {
    if entries == [] || cut < HEADER_SIZE + |entries[0].data| then 0
    else 1 + Complete(hash, entries[1..], cut - HEADER_SIZE - |entries[0].data|)
  }

  /** `Complete` is the number of entries whose bytes all lie before the cut. */
  lemma {:induction false} CompleteIsMaximal(hash: Hash, entries: seq<Entry>, cut: nat)
    ensures var k := Complete(hash, entries, cut);
            && |Stream(hash, entries[..k])| <= cut
            && (k < |entries| ==> cut < |Stream(hash, entries[..k + 1])|)
  {
    var k := Complete(hash, entries, cut);
    if entries != [] {
      if k > 0 {
        CompleteIsMaximal(hash, entries[1..], cut - HEADER_SIZE - |entries[0].data|);
        assert entries[..k][1..] == entries[1..][..k - 1];
        if k < |entries| {
          assert entries[..k + 1][1..] == entries[1..][..k];
        }
      } else {
        assert Stream(hash, entries[..1])
            == Encode(hash, entries[0].sequence, entries[0].data) + Stream(hash, entries[..1][1..]);
      }
    }
  }

  /** A segment that starts with a complete entry parses as that entry and then the rest. */
  lemma ParseOne(hash: Hash, e: Entry, rest: Bytes, offset: nat)
    requires Fits(e)
    ensures Parse(hash, Encode(hash, e.sequence, e.data) + rest, offset)
            == Prepend([e], Parse(hash, rest, offset + HEADER_SIZE + |e.data|))
  {
    DecodeInverts(hash, e, rest, offset);
  }

  lemma CutInFirst(hash: Hash, e: Entry, tail: Bytes, cut: nat, offset: nat)
    requires Fits(e) && cut < HEADER_SIZE + |e.data|
    ensures Parse(hash, (Encode(hash, e.sequence, e.data) + tail)[..cut], offset)
            == if cut == 0 then Ok([]) else Err(UnexpectedEof(offset))
  {
    DecodeCut(hash, e, cut, offset);
    var code := Encode(hash, e.sequence, e.data);
    assert (code + tail)[..cut] == code[..cut];
  }

  lemma CutLater(hash: Hash, e: Entry, tail: Bytes, cut: nat, offset: nat)
    requires Fits(e) && cut <= |tail|
    ensures var size := HEADER_SIZE + |e.data|;
            Parse(hash, (Encode(hash, e.sequence, e.data) + tail)[..size + cut], offset)
            == Prepend([e], Parse(hash, tail[..cut], offset + size))
  {
    var code, size := Encode(hash, e.sequence, e.data), HEADER_SIZE + |e.data|;
    ParseOne(hash, e, tail[..cut], offset);
    assert (code + tail)[..size + cut] == code + tail[..cut];
  }

  /** What reading the first `cut` bytes of a segment gives. */
  function Torn(hash: Hash, entries: seq<Entry>, cut: nat, offset: nat): Result<seq<Entry>> {
    var whole := entries[..Complete(hash, entries, cut)];
    var done := |Stream(hash, whole)|;
    if done == cut then Ok(whole) else Err(UnexpectedEof(offset + done))
  }

  lemma TornFirst(hash: Hash, e: Entry, rest: seq<Entry>, cut: nat, offset: nat)
    requires cut < HEADER_SIZE + |e.data|
    ensures Torn(hash, [e] + rest, cut, offset) == if cut == 0 then Ok([]) else Err(UnexpectedEof(offset))
  {
    assert ([e] + rest)[..0] == [];
  }

  lemma TornRest(hash: Hash, e: Entry, rest: seq<Entry>, cut: nat, offset: nat)
    ensures var size := HEADER_SIZE + |e.data|;
            Torn(hash, [e] + rest, size + cut, offset) == Prepend([e], Torn(hash, rest, cut, offset + size))
  {
    var k := Complete(hash, rest, cut);
    assert ([e] + rest)[1..] == rest;
    assert Complete(hash, [e] + rest, HEADER_SIZE + |e.data| + cut) == 1 + k;
    assert ([e] + rest)[..1 + k] == [e] + rest[..k];
    assert ([e] + rest[..k])[1..] == rest[..k];
  }

  lemma TornLater(hash: Hash, e: Entry, rest: seq<Entry>, tail: Bytes, cut: nat, offset: nat)
    requires Fits(e) && cut <= |tail|
    requires Parse(hash, tail[..cut], offset + HEADER_SIZE + |e.data|)
             == Torn(hash, rest, cut, offset + HEADER_SIZE + |e.data|)
    ensures Parse(hash, (Encode(hash, e.sequence, e.data) + tail)[..HEADER_SIZE + |e.data| + cut], offset)
            == Torn(hash, [e] + rest, HEADER_SIZE + |e.data| + cut, offset)
  {
    TornRest(hash, e, rest, cut, offset);
    CutLater(hash, e, tail, cut, offset);
  }

  /** Torn segments: a byte prefix of a segment reads back as its complete entries when the cut is on an entry
      boundary, and as an unexpected end of file, located at the torn entry, when it is not. It never yields a wrong
      entry or a checksum error. */
  lemma {:induction false} TornSegment(hash: Hash, entries: seq<Entry>, cut: nat, offset: nat)
    requires AllFit(entries) && cut <= |Stream(hash, entries)|
    ensures Parse(hash, Stream(hash, entries)[..cut], offset) == Torn(hash, entries, cut, offset)
  {
    if entries != [] {
      var e, rest := entries[0], entries[1..];
      var size, tail := HEADER_SIZE + |e.data|, Stream(hash, rest);
      assert Fits(e) && entries == [e] + rest;
      if cut < size {
        TornFirst(hash, e, rest, cut, offset);
        CutInFirst(hash, e, tail, cut, offset);
      } else {
        TornSegment(hash, rest, cut - size, offset + size);
        TornLater(hash, e, rest, tail, cut - size, offset);
      }
    }
  }

  /** A whole segment reads back exactly. */
  lemma ParseInverts(hash: Hash, entries: seq<Entry>)
    requires AllFit(entries)
    ensures Parse(hash, Stream(hash, entries), 0) == Ok(entries)
  {
    var whole := Stream(hash, entries);
    TornSegment(hash, entries, |whole|, 0);
    CompleteIsMaximal(hash, entries, |whole|);
    var k := Complete(hash, entries, |whole|);
    if k < |entries| {
      assert entries == entries[..k + 1] + entries[k + 1..];
      StreamConcat(hash, entries[..k + 1], entries[k + 1..]);
    }
    assert whole[..|whole|] == whole;
    assert entries[..|entries|] == entries;
  }
}
