/**
 * Little-endian fixed-width unsigned integers, as `struct.pack("<Q", n)`
 * writes them: eight bytes, least significant first, and an error for a
 * value outside [0, 2^64).
 */
module LittleEndian {
  import opened Wrappers

  type Byte = b: int | 0 <= b < 256

  /** One past the largest unsigned 64-bit value. */
  const U64Limit: nat := 0x1_0000_0000_0000_0000

  /** Width in bytes of a u64. */
  const U64Width: nat := 8

  predicate InU64(n: int) {
    0 <= n < U64Limit
  }

  /** The error `struct.pack` raises for a value the format cannot hold. */
  datatype PackError = ArgumentOutOfRange(value: int)

  function Pow256(k: nat): (r: nat)
    ensures r >= 1
  {
    if k == 0 then 1 else 256 * Pow256(k - 1)
  }

  /** The low `width` bytes of `n`, least significant first. */
  function LeBytes(n: nat, width: nat): (r: seq<Byte>)
    ensures |r| == width
  {
    if width == 0 then [] else [n % 256] + LeBytes(n / 256, width - 1)
  }

  /** The unsigned value of a little-endian byte string. */
  function LeValue(bs: seq<Byte>): nat {
    if bs == [] then 0 else bs[0] + 256 * LeValue(bs[1..])
  }

  lemma {:induction false} LeValueBound(bs: seq<Byte>)
    ensures LeValue(bs) < Pow256(|bs|)
  {
    if bs != [] {
      LeValueBound(bs[1..]);
      assert LeValue(bs[1..]) <= Pow256(|bs| - 1) - 1;
    }
  }

  /** Reading back the bytes of a value that fits gives the value. */
  lemma {:induction false} LeRoundTrip(n: nat, width: nat)
    requires n < Pow256(width)
    ensures LeValue(LeBytes(n, width)) == n
  {
    if width > 0 {
      assert n / 256 < Pow256(width - 1);
      LeRoundTrip(n / 256, width - 1);
      var bs := LeBytes(n, width);
      assert bs[1..] == LeBytes(n / 256, width - 1);
    }
  }

  /** Writing back the value of a byte string gives the same bytes: the encoding is a bijection. */
  lemma {:induction false} LeBytesOfValue(bs: seq<Byte>)
    ensures LeBytes(LeValue(bs), |bs|) == bs
  {
    if bs != [] {
      LeBytesOfValue(bs[1..]);
      var v := LeValue(bs);
      assert v % 256 == bs[0];
      assert v / 256 == LeValue(bs[1..]);
    }
  }

  lemma U64LimitIsEightBytes()
    ensures Pow256(U64Width) == U64Limit
  {
  }

  /** `struct.pack("<Q", n)`. */
  function PackU64(n: int): (r: Result<seq<Byte>, PackError>)
    ensures r.Ok? <==> InU64(n)
    ensures r.Err? ==> r.error == ArgumentOutOfRange(n)
    ensures r.Ok? ==> |r.value| == U64Width && LeValue(r.value) == n
  {
    if InU64(n) then
      U64LimitIsEightBytes();
      LeRoundTrip(n, U64Width);
      Ok(LeBytes(n, U64Width))
    else
      Err(ArgumentOutOfRange(n))
  }

  /** `struct.unpack("<Q", bs)`, the inverse of PackU64 on 8-byte strings. */
  function UnpackU64(bs: seq<Byte>): (r: nat)
    requires |bs| == U64Width
    ensures InU64(r)
    ensures PackU64(r) == Ok(bs)
  {
    LeValueBound(bs);
    U64LimitIsEightBytes();
    LeBytesOfValue(bs);
    LeValue(bs)
  }
}
