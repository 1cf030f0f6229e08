/**
 Bytes, fixed-width unsigned integers and their little-endian encoding.
 The source's `u16` and `u64` are the subset types below, so every bound is explicit.
 */
module Bytes {
  type byte = n: nat | n < 256
  type u16 = n: nat | n < 0x1_0000
  type u64 = n: nat | n < U64_LIMIT

  const U64_LIMIT: nat := 0x1_0000_0000_0000_0000

  function Pow256(k: nat): (p: nat)
    ensures p > 0
  {
    if k == 0 then 1 else 256 * Pow256(k - 1)
  }

  /** The `width` little-endian bytes of `n`; higher bytes are dropped. */
  function ToLe(n: nat, width: nat): (b: seq<byte>)
    ensures |b| == width
  {
    if width == 0 then [] else [n % 256] + ToLe(n / 256, width - 1)
  }

  function FromLe(b: seq<byte>): nat {
    if b == [] then 0 else b[0] + 256 * FromLe(b[1..])
  }

  lemma {:induction false} FromLeToLe(n: nat, width: nat)
    requires n < Pow256(width)
    ensures FromLe(ToLe(n, width)) == n
  {
    if width > 0 {
      FromLeToLe(n / 256, width - 1);
      assert ToLe(n, width)[1..] == ToLe(n / 256, width - 1);
    }
  }

  lemma {:induction false} ToLeFromLe(b: seq<byte>)
    ensures FromLe(b) < Pow256(|b|)
    ensures ToLe(FromLe(b), |b|) == b
  {
    if b != [] {
      ToLeFromLe(b[1..]);
      var high := FromLe(b[1..]);
      assert FromLe(b) == b[0] + 256 * high;
      assert FromLe(b) % 256 == b[0] && FromLe(b) / 256 == high;
      assert ToLe(FromLe(b), |b|) == [b[0]] + ToLe(high, |b| - 1);
    }
  }

  /** Positional value: the least significant byte comes first, and each later byte weighs 256 times more. */
  lemma {:induction false} FromLeConcat(a: seq<byte>, b: seq<byte>)
    ensures FromLe(a + b) == FromLe(a) + Pow256(|a|) * FromLe(b)
  {
    if a == [] {
      assert a + b == b;
    } else {
      assert (a + b)[1..] == a[1..] + b;
      FromLeConcat(a[1..], b);
      Weigh(FromLe(a[1..]), Pow256(|a| - 1), FromLe(b));
    }
  }

  lemma Weigh(low: nat, weight: nat, high: nat)
    ensures 256 * (low + weight * high) == 256 * low + 256 * weight * high
  {
  }

  lemma OneByte(x: byte, k: nat)
    ensures FromLe([x]) == x && Pow256(0) == 1 && Pow256(k + 1) == 256 * Pow256(k)
  {
  }

  lemma Pow256Values()
    ensures Pow256(2) == 0x1_0000
    ensures Pow256(4) == 0x1_0000_0000
    ensures Pow256(8) == U64_LIMIT
  {
    assert Pow256(2) == 256 * Pow256(1);
    assert Pow256(4) == 256 * Pow256(3);
    assert Pow256(6) == 256 * Pow256(5);
    assert Pow256(8) == 256 * Pow256(7);
  }

  function U16At(data: seq<byte>, offset: nat): (n: u16)
    requires offset + 2 <= |data|
    ensures ToLe(n, 2) == data[offset..offset + 2]
  {
    ToLeFromLe(data[offset..offset + 2]);
    Pow256Values();
    FromLe(data[offset..offset + 2])
  }

  function U32At(data: seq<byte>, offset: nat): (n: nat)
    requires offset + 4 <= |data|
    ensures n < 0x1_0000_0000 && ToLe(n, 4) == data[offset..offset + 4]
  {
    ToLeFromLe(data[offset..offset + 4]);
    Pow256Values();
    FromLe(data[offset..offset + 4])
  }

  function U64At(data: seq<byte>, offset: nat): (n: u64)
    requires offset + 8 <= |data|
    ensures ToLe(n, 8) == data[offset..offset + 8]
  {
    ToLeFromLe(data[offset..offset + 8]);
    Pow256Values();
    FromLe(data[offset..offset + 8])
  }

  lemma U16AtToLe(data: seq<byte>, offset: nat, n: u16)
    requires offset + 2 <= |data|
    requires data[offset..offset + 2] == ToLe(n, 2)
    ensures U16At(data, offset) == n
  {
    Pow256Values();
    FromLeToLe(n, 2);
  }

  lemma U32AtToLe(data: seq<byte>, offset: nat, n: nat)
    requires offset + 4 <= |data| && n < 0x1_0000_0000
    requires data[offset..offset + 4] == ToLe(n, 4)
    ensures U32At(data, offset) == n
  {
    Pow256Values();
    FromLeToLe(n, 4);
  }

  lemma U64AtToLe(data: seq<byte>, offset: nat, n: u64)
    requires offset + 8 <= |data|
    requires data[offset..offset + 8] == ToLe(n, 8)
    ensures U64At(data, offset) == n
  {
    Pow256Values();
    FromLeToLe(n, 8);
  }
}
