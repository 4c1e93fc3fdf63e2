/** Bytes, options and little-endian integers, shared by every on-disk format of the project. */
module Bytes {

  type byte = x: int | 0 <= x < 256
  type Bytes = seq<byte>

  datatype Option<+T> = None | Some(value: T)

  const U32: nat := 0x1_0000_0000
  const U64: nat := 0x1_0000_0000_0000_0000

  /** The value range of `width` bytes. */
  function Range(width: nat): (r: nat)
    ensures r > 0
  {
    if width == 0 then 1 else 256 * Range(width - 1)
  }

  lemma Ranges()
    ensures Range(4) == U32
    ensures Range(8) == U64
  {
    assert Range(2) == 256 * 256;
    assert Range(4) == 256 * 256 * Range(2);
    assert Range(6) == 256 * 256 * Range(4);
    assert Range(8) == 256 * 256 * Range(6);
  }

  /** The `width` low-order bytes of `n`, least significant first (`to_le_bytes` after an `as` cast). */
  function ToLe(n: nat, width: nat): (bs: Bytes)
    ensures |bs| == width
  {
    if width == 0 then [] else [n % 256] + ToLe(n / 256, width - 1)
  }

  function FromLe(bs: Bytes): nat {
    if bs == [] then 0 else bs[0] + 256 * FromLe(bs[1..])
  }

  /** Little-endian coding loses nothing that fits, and nothing decodes out of range. */
  lemma {:induction false} LeRoundTrip(n: nat, width: nat)
    requires n < Range(width)
    ensures FromLe(ToLe(n, width)) == n
  {
    if width > 0 {
      LeRoundTrip(n / 256, width - 1);
      assert ToLe(n, width)[1..] == ToLe(n / 256, width - 1);
    }
  }

  lemma {:induction false} FromLeInRange(bs: Bytes)
    ensures FromLe(bs) < Range(|bs|)
  {
    if bs != [] {
      FromLeInRange(bs[1..]);
    }
  }

  lemma Le32(n: nat)
    requires n < U32
    ensures FromLe(ToLe(n, 4)) == n
  {
    Ranges();
    LeRoundTrip(n, 4);
  }

  lemma Le64(n: nat)
    requires n < U64
    ensures FromLe(ToLe(n, 8)) == n
  {
    Ranges();
    LeRoundTrip(n, 8);
  }
}
