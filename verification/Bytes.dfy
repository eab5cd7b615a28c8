/** Bytes, fixed-width little-endian integers and the option type the other modules share. */
module Bytes {

  datatype Option<+T> = None | Some(value: T)

  newtype u8 = x: int | 0 <= x < 256
  type u32 = x: int | 0 <= x < TWO_32
  type u64 = x: int | 0 <= x < TWO_64

  type Bytes = seq<u8>
  type Address = b: Bytes | |b| == 32 witness seq(32, _ => 0)

  const TWO_32: int := 0x1_0000_0000
  const TWO_64: int := 0x1_0000_0000_0000_0000

  /** The value under a key, as a store's `get` answers it. */
  function Lookup<K, T>(m: map<K, T>, k: K): Option<T> {
    if k in m then Some(m[k]) else None
  }

  function Pow256(width: nat): nat {
    if width == 0 then 1 else 256 * Pow256(width - 1)
  }

  /** `to_le_bytes` at any width: the least significant byte comes first. */
  function ToLe(n: nat, width: nat): (b: Bytes)
    ensures |b| == width
  {
    if width == 0 then [] else [(n % 256) as u8] + ToLe(n / 256, width - 1)
  }

  /** `from_le_bytes` at any width. */
  function FromLe(b: Bytes): nat {
    if b == [] then 0 else b[0] as nat + 256 * FromLe(b[1..])
  }

  lemma {:induction false} FromToLe(n: nat, width: nat)
    requires n < Pow256(width)
    ensures FromLe(ToLe(n, width)) == n
  {
    if width == 0 {
    } else {
      var b := ToLe(n, width);
      assert b[1..] == ToLe(n / 256, width - 1);
      FromToLe(n / 256, width - 1);
    }
  }

  lemma {:induction false} ToFromLe(b: Bytes)
    ensures FromLe(b) < Pow256(|b|)
    ensures ToLe(FromLe(b), |b|) == b
  {
    if b == [] {
    } else {
      ToFromLe(b[1..]);
      assert FromLe(b) / 256 == FromLe(b[1..]) && FromLe(b) % 256 == b[0] as nat;
      assert b == [b[0]] + b[1..];
    }
  }

  /** Little-endian: each byte weighs 256 times as much as the one before it. */
  lemma {:induction false} LaterBytesWeighMore(b: Bytes, c: Bytes)
    ensures FromLe(b + c) == FromLe(b) + Pow256(|b|) * FromLe(c)
  {
    if b == [] {
      assert b + c == c;
    } else {
      LaterBytesWeighMore(b[1..], c);
      assert (b + c)[1..] == b[1..] + c;
      assert 256 * (Pow256(|b| - 1) * FromLe(c)) == Pow256(|b|) * FromLe(c);
    }
  }

  /** A single byte is worth its number. */
  lemma OneByte(b: u8)
    ensures FromLe([b]) == b as nat
  {
    assert FromLe([b][1..]) == 0;
  }

  /** A further byte weighs 256 to the number of bytes before it. */
  lemma NextByte(b: Bytes, next: u8)
    ensures FromLe(b + [next]) == FromLe(b) + Pow256(|b|) * next as nat
  {
    LaterBytesWeighMore(b, [next]);
    OneByte(next);
  }

  /** A 32-bit index spelled out. */
  lemma FourBytes(a: u8, b: u8, c: u8, d: u8)
    ensures FromLe32([a, b, c, d]) == a as int + 0x100 * b as int + 0x1_0000 * c as int + 0x100_0000 * d as int
  {
    OneByte(a);
    NextByte([a], b);
    NextByte([a, b], c);
    NextByte([a, b, c], d);
    assert Pow256(1) == 0x100 && Pow256(2) == 0x1_0000 && Pow256(3) == 0x100_0000;
    assert [a] + [b] == [a, b] && [a, b] + [c] == [a, b, c] && [a, b, c] + [d] == [a, b, c, d];
  }

  /** A 64-bit number is two 32-bit halves, the lower one first. */
  lemma EightBytes(low: Bytes, high: Bytes)
    requires |low| == |high| == 4
    ensures FromLe64(low + high) == FromLe32(low) + TWO_32 * FromLe32(high)
  {
    LaterBytesWeighMore(low, high);
    Widths();
  }

  lemma Widths()
    ensures Pow256(4) == TWO_32 && Pow256(8) == TWO_64
  {
  }

  function Le32(n: u32): (b: Bytes)
    ensures |b| == 4
    ensures FromLe32(b) == n
  {
    Widths();
    FromToLe(n, 4);
    ToLe(n, 4)
  }

  function FromLe32(b: Bytes): (n: u32)
    requires |b| == 4
  {
    Widths();
    ToFromLe(b);
    FromLe(b)
  }

  function Le64(n: u64): (b: Bytes)
    ensures |b| == 8
    ensures FromLe64(b) == n
  {
    Widths();
    FromToLe(n, 8);
    ToLe(n, 8)
  }

  function FromLe64(b: Bytes): (n: u64)
    requires |b| == 8
  {
    Widths();
    ToFromLe(b);
    FromLe(b)
  }

  /** Every four bytes are the little-endian form of exactly one index. */
  lemma Le32Onto(b: Bytes)
    requires |b| == 4
    ensures Le32(FromLe32(b)) == b
  {
    ToFromLe(b);
  }

  lemma Le64Onto(b: Bytes)
    requires |b| == 8
    ensures Le64(FromLe64(b)) == b
  {
    ToFromLe(b);
  }
}
