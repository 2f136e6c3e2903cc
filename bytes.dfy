/**
  Bytes and the big-endian integer layouts written and read through a
  JavaScript `DataView` (`setUint16`, `setUint32`, `setBigInt64` and their
  `get` counterparts, always with `littleEndian = false`).
 */
module Bytes {

  /** One octet of an `ArrayBuffer`. */
  type byte = x: int | 0 <= x < 256

  const TWO_TO_16: int := 0x1_0000
  const TWO_TO_32: int := 0x1_0000_0000
  const TWO_TO_63: int := 0x8000_0000_0000_0000
  const TWO_TO_64: int := 0x1_0000_0000_0000_0000

  /** 256 to the power n: the number of values n bytes can hold. */
  function Pow256(n: nat): (p: nat)
    ensures p >= 1
  {
    if n == 0 then 1 else 256 * Pow256(n - 1)
  }

  /** The unsigned value of `bs` read most significant byte first. */
  function BeValue(bs: seq<byte>): nat
  {
    if bs == [] then 0 else BeValue(bs[..|bs| - 1]) * 256 + bs[|bs| - 1]
  }

  /** The n bytes holding `v` most significant byte first; `v` must fit. */
  function BeBytes(v: nat, n: nat): (bs: seq<byte>)
    requires v < Pow256(n)
    ensures |bs| == n
  {
    if n == 0 then [] else BeBytes(v / 256, n - 1) + [v % 256]
  }

  lemma {:induction false} BeValueBound(bs: seq<byte>)
    ensures BeValue(bs) < Pow256(|bs|)
  {
    if bs != [] {
      var init := bs[..|bs| - 1];
      BeValueBound(init);
      assert BeValue(init) + 1 <= Pow256(|init|);
      calc {
        BeValue(bs);
        BeValue(init) * 256 + bs[|bs| - 1];
      <  BeValue(init) * 256 + 256;
        (BeValue(init) + 1) * 256;
      <= { MulMonotone(BeValue(init) + 1, Pow256(|init|), 256); }
        Pow256(|init|) * 256;
      }
    }
  }

  lemma MulMonotone(a: nat, b: nat, c: nat)
    requires a <= b
    ensures a * c <= b * c
  {
  }

  /** Reading back what was written gives the value that was written. */
  lemma {:induction false} BeValueOfBeBytes(v: nat, n: nat)
    requires v < Pow256(n)
    ensures BeValue(BeBytes(v, n)) == v
  {
    if n > 0 {
      assert v / 256 < Pow256(n - 1) by { DivBound(v, Pow256(n - 1)); }
      var bs := BeBytes(v, n);
      assert bs[..n - 1] == BeBytes(v / 256, n - 1);
      BeValueOfBeBytes(v / 256, n - 1);
    }
  }

  lemma DivBound(v: nat, p: nat)
    requires v < 256 * p
    ensures v / 256 < p
  {
  }

  /** Writing what was read gives the bytes that were read. */
  lemma {:induction false} BeBytesOfBeValue(bs: seq<byte>)
    ensures BeValue(bs) < Pow256(|bs|)
    ensures BeBytes(BeValue(bs), |bs|) == bs
  {
    BeValueBound(bs);
    if bs != [] {
      var init := bs[..|bs| - 1];
      BeBytesOfBeValue(init);
      var v := BeValue(bs);
      assert v / 256 == BeValue(init) && v % 256 == bs[|bs| - 1];
      assert bs == init + [bs[|bs| - 1]];
    }
  }

  /** The unsigned 16-bit integer `setUint16` stores: the value modulo 2^16. */
  function ToUint16(v: int): (u: nat)
    ensures u < Pow256(2)
  {
    assert Pow256(2) == TWO_TO_16;
    v % TWO_TO_16
  }

  /** The unsigned 32-bit integer `setUint32` stores: the value modulo 2^32. */
  function ToUint32(v: int): (u: nat)
    ensures u < Pow256(4)
  {
    assert Pow256(4) == TWO_TO_32;
    v % TWO_TO_32
  }

  /** The 64-bit pattern `setBigInt64` stores: two's complement modulo 2^64. */
  function ToUint64(v: int): (u: nat)
    ensures u < Pow256(8)
  {
    assert Pow256(8) == TWO_TO_64;
    v % TWO_TO_64
  }

  /** The signed value `getBigInt64` reads from a 64-bit pattern. */
  function FromTwosComplement64(u: nat): int
  {
    if u >= TWO_TO_63 then u - TWO_TO_64 else u
  }

  predicate IsInt64(v: int)
  {
    -(TWO_TO_63) <= v < TWO_TO_63
  }

  /** `BigInt.asIntN(64, v)`: the int64 that `v` wraps to. */
  function WrapInt64(v: int): (w: int)
    ensures IsInt64(w)
    ensures (w - v) % TWO_TO_64 == 0
    ensures IsInt64(v) ==> w == v
  {
    FromTwosComplement64(ToUint64(v))
  }

  function BeUint16(v: int): (bs: seq<byte>)
    ensures |bs| == 2
  {
    BeBytes(ToUint16(v), 2)
  }

  function BeUint32(v: int): (bs: seq<byte>)
    ensures |bs| == 4
  {
    BeBytes(ToUint32(v), 4)
  }

  function BeInt64(v: int): (bs: seq<byte>)
    ensures |bs| == 8
  {
    BeBytes(ToUint64(v), 8)
  }

  /** `getBigInt64`: the signed value of 8 bytes. */
  function ReadBeInt64(bs: seq<byte>): int
    requires |bs| == 8
  {
    FromTwosComplement64(BeValue(bs))
  }

  lemma Uint16RoundTrip(v: int)
    ensures BeValue(BeUint16(v)) == v % TWO_TO_16
    ensures 0 <= v < TWO_TO_16 ==> BeValue(BeUint16(v)) == v
  {
    BeValueOfBeBytes(ToUint16(v), 2);
  }

  lemma Uint32RoundTrip(v: int)
    ensures BeValue(BeUint32(v)) == v % TWO_TO_32
    ensures 0 <= v < TWO_TO_32 ==> BeValue(BeUint32(v)) == v
  {
    BeValueOfBeBytes(ToUint32(v), 4);
  }

  /** A timestamp written with `setBigInt64` reads back with `getBigInt64` as its int64 wrap. */
  lemma Int64RoundTrip(v: int)
    ensures ReadBeInt64(BeInt64(v)) == WrapInt64(v)
    ensures IsInt64(v) ==> ReadBeInt64(BeInt64(v)) == v
  {
    BeValueOfBeBytes(ToUint64(v), 8);
  }
}
