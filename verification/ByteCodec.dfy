/**
  Bytes, fixed-width machine integers and their big-endian wire form, as Go's
  encoding/binary writes them.
 */
module ByteCodec {

  type byte = b: int | 0 <= b < 0x100
  type uint16 = x: int | 0 <= x < 0x1_0000
  type uint32 = x: int | 0 <= x < 0x1_0000_0000
  type uint64 = x: int | 0 <= x < 0x1_0000_0000_0000_0000
  type uint128 = x: int | 0 <= x < 0x1_0000_0000_0000_0000_0000_0000_0000_0000
  type int64 = x: int | -0x8000_0000_0000_0000 <= x < 0x8000_0000_0000_0000

  datatype Option<+T> = None | Some(value: T)

  datatype Result<+T, +E> = Ok(value: T) | Err(error: E)

  function Min(a: int, b: int): int {
    if a <= b then a else b
  }

  function Pow256(n: nat): (r: int)
    ensures r > 0
  {
    if n == 0 then 1 else 0x100 * Pow256(n - 1)
  }

  lemma Pow256Values()
    ensures Pow256(1) == 0x100
    ensures Pow256(2) == 0x1_0000
    ensures Pow256(4) == 0x1_0000_0000
    ensures Pow256(8) == 0x1_0000_0000_0000_0000
    ensures Pow256(16) == 0x1_0000_0000_0000_0000_0000_0000_0000_0000
  {
    assert Pow256(4) == 0x100 * 0x100 * Pow256(2);
    assert Pow256(6) == 0x100 * 0x100 * Pow256(4);
    assert Pow256(8) == 0x100 * 0x100 * Pow256(6);
    assert Pow256(10) == 0x100 * 0x100 * Pow256(8);
    assert Pow256(12) == 0x100 * 0x100 * Pow256(10);
    assert Pow256(14) == 0x100 * 0x100 * Pow256(12);
    assert Pow256(16) == 0x100 * 0x100 * Pow256(14);
  }

  /** The n-byte big-endian form of v. */
  function PutBE(v: int, n: nat): (b: seq<byte>)
    requires 0 <= v < Pow256(n)
    ensures |b| == n
  {
    if n == 0 then [] else PutBE(v / 0x100, n - 1) + [v % 0x100]
  }

  /** The number whose big-endian form is b. */
  function GetBE(b: seq<byte>): (v: int)
    ensures 0 <= v < Pow256(|b|)
  {
    if b == [] then 0 else 0x100 * GetBE(b[..|b| - 1]) + b[|b| - 1]
  }

  lemma {:induction false} GetPut(v: int, n: nat)
    requires 0 <= v < Pow256(n)
    ensures GetBE(PutBE(v, n)) == v
  {
    if n > 0 {
      GetPut(v / 0x100, n - 1);
      var b := PutBE(v, n);
      assert b[..|b| - 1] == PutBE(v / 0x100, n - 1);
    }
  }

  lemma {:induction false} PutGet(b: seq<byte>)
    ensures PutBE(GetBE(b), |b|) == b
  {
    if b != [] {
      PutGet(b[..|b| - 1]);
      assert b == b[..|b| - 1] + [b[|b| - 1]];
    }
  }

  function Put16(v: uint16): (b: seq<byte>)
    ensures |b| == 2
  {
    Pow256Values(); PutBE(v, 2)
  }

  function Put32(v: uint32): (b: seq<byte>)
    ensures |b| == 4
  {
    Pow256Values(); PutBE(v, 4)
  }

  function Put64(v: uint64): (b: seq<byte>)
    ensures |b| == 8
  {
    Pow256Values(); PutBE(v, 8)
  }

  function Get16(b: seq<byte>): uint16
    requires |b| == 2
  {
    Pow256Values(); GetBE(b)
  }

  function Get32(b: seq<byte>): uint32
    requires |b| == 4
  {
    Pow256Values(); GetBE(b)
  }

  function Get64(b: seq<byte>): uint64
    requires |b| == 8
  {
    Pow256Values(); GetBE(b)
  }

  /** Go's conversion uint64(d) of a signed 64-bit duration. */
  function ToUint64(d: int64): uint64 {
    if d < 0 then d + 0x1_0000_0000_0000_0000 else d
  }

  /** Go's conversion time.Duration(u) of an unsigned 64-bit integer. */
  function ToInt64(u: uint64): int64 {
    if u < 0x8000_0000_0000_0000 then u else u - 0x1_0000_0000_0000_0000
  }

  /** Every fixed-width integer survives the trip through its wire form. */
  lemma IntegersRoundTrip(a: uint16, b: uint32, c: uint64, d: int64)
    ensures Get16(Put16(a)) == a
    ensures Get32(Put32(b)) == b
    ensures Get64(Put64(c)) == c
    ensures ToInt64(Get64(Put64(ToUint64(d)))) == d
  {
    Pow256Values();
    GetPut(a, 2);
    GetPut(b, 4);
    GetPut(c, 8);
    GetPut(ToUint64(d), 8);
  }

  function Zeros(n: nat): (b: seq<byte>)
    ensures |b| == n && forall i :: 0 <= i < n ==> b[i] == 0
  {
    seq(n, _ => 0)
  }
}
