/** Little-endian numbers as byte strings. */
module Bytes {
  import opened Types

  ghost function Pow256(width: nat): (p: nat)
    ensures p > 0
  {
    if width == 0 then 1 else 0x100 * Pow256(width - 1)
  }

  function FromLE(bytes: seq<u8>): (n: nat)
    ensures n < Pow256(|bytes|)
  {
    if bytes == [] then 0 else bytes[0] + 0x100 * FromLE(bytes[1..])
  }

  function ToLE(n: nat, width: nat): (bytes: seq<u8>)
    ensures |bytes| == width
  {
    if width == 0 then [] else [n % 0x100] + ToLE(n / 0x100, width - 1)
  }

  lemma {:induction false} FromTo(n: nat, width: nat)
    requires n < Pow256(width)
    ensures FromLE(ToLE(n, width)) == n
  {
    if width > 0 {
      FromTo(n / 0x100, width - 1);
      assert ToLE(n, width)[1..] == ToLE(n / 0x100, width - 1);
    }
  }

  lemma {:induction false} ToFrom(bytes: seq<u8>)
    ensures ToLE(FromLE(bytes), |bytes|) == bytes
  {
    if bytes != [] {
      ToFrom(bytes[1..]);
      assert bytes == [bytes[0]] + bytes[1..];
    }
  }

  lemma Pow8()
    ensures Pow256(8) == 0x1_0000_0000_0000_0000
  {
  }

  lemma Pow32()
    ensures Pow256(32) == 0x1_0000000000000000_0000000000000000_0000000000000000_0000000000000000
  {
    assert Pow256(12) == 0x1_00000000_0000000000000000;
    assert Pow256(22) == 0x1_000000000000_0000000000000000_0000000000000000;
  }

  function U64Bytes(x: u64): (bytes: seq<u8>)
    ensures |bytes| == 8
  {
    ToLE(x, 8)
  }

  function U64Of(bytes: seq<u8>): (x: u64)
    requires |bytes| == 8
  {
    Pow8();
    FromLE(bytes)
  }

  function KeyBytes(k: Pubkey): (bytes: seq<u8>)
    ensures |bytes| == 32
  {
    ToLE(k, 32)
  }

  function KeyOf(bytes: seq<u8>): (k: Pubkey)
    requires |bytes| == 32
  {
    Pow32();
    FromLE(bytes)
  }

  /** Numbers and keys survive the trip through bytes, and bytes the trip back. */
  lemma U64RoundTrip(x: u64)
    ensures U64Of(U64Bytes(x)) == x
  {
    Pow8();
    FromTo(x, 8);
  }

  lemma U64RoundTripBack(bytes: seq<u8>)
    requires |bytes| == 8
    ensures U64Bytes(U64Of(bytes)) == bytes
  {
    ToFrom(bytes);
  }

  lemma KeyRoundTrip(k: Pubkey)
    ensures KeyOf(KeyBytes(k)) == k
  {
    Pow32();
    FromTo(k, 32);
  }

  lemma KeyRoundTripBack(bytes: seq<u8>)
    requires |bytes| == 32
    ensures KeyBytes(KeyOf(bytes)) == bytes
  {
    ToFrom(bytes);
  }

  function Zeros(n: nat): (bytes: seq<u8>)
    ensures |bytes| == n
    ensures forall i :: 0 <= i < n ==> bytes[i] == 0
  {
    if n == 0 then [] else [0] + Zeros(n - 1)
  }

  lemma {:induction false} FromZeros(bytes: seq<u8>)
    requires forall i :: 0 <= i < |bytes| ==> bytes[i] == 0
    ensures FromLE(bytes) == 0
  {
    if bytes != [] {
      FromZeros(bytes[1..]);
    }
  }
}
