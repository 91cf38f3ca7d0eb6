/** Bytes and fixed-width unsigned numbers in either byte order. */
module Bytes {

  type byte = x: int | 0 <= x < 256
  type uint16 = x: int | 0 <= x <= 0xFFFF
  type uint32 = x: int | 0 <= x <= 0xFFFF_FFFF

  function Pow256(k: nat): (p: nat)
    ensures p > 0
  {
    if k == 0 then 1 else 256 * Pow256(k - 1)
  }

  /** Little-endian. */
  function Encode(n: nat, k: nat): (out: seq<byte>)
    ensures |out| == k
  {
    if k == 0 then [] else [n % 256] + Encode(n / 256, k - 1)
  }

  function Decode(s: seq<byte>): nat {
    if s == [] then 0 else s[0] + 256 * Decode(s[1..])
  }

  lemma {:induction false} DecodeEncode(n: nat, k: nat)
    requires n < Pow256(k)
    ensures Decode(Encode(n, k)) == n
  {
    if k > 0 {
      assert Encode(n, k)[1..] == Encode(n / 256, k - 1);
      DecodeEncode(n / 256, k - 1);
    }
  }

  lemma {:induction false} Powers()
    ensures Pow256(2) == 0x1_0000 && Pow256(4) == 0x1_0000_0000 && Pow256(8) == 0x1_0000_0000_0000_0000
  {
    assert Pow256(2) == 256 * Pow256(1);
    assert Pow256(4) == 256 * Pow256(3);
    assert Pow256(6) == 256 * Pow256(5);
    assert Pow256(8) == 256 * Pow256(7);
  }

  datatype Order = Little | Big

  function Reverse(s: seq<byte>): (r: seq<byte>)
    ensures |r| == |s|
    ensures forall i :: 0 <= i < |s| ==> r[i] == s[|s| - 1 - i]
  {
    if s == [] then [] else Reverse(s[1..]) + [s[0]]
  }

  function Put(order: Order, n: nat, k: nat): (out: seq<byte>)
    ensures |out| == k
  {
    if order.Little? then Encode(n, k) else Reverse(Encode(n, k))
  }

  function Get(order: Order, s: seq<byte>): nat {
    if order.Little? then Decode(s) else Decode(Reverse(s))
  }

  /** Reading back what was put, in the same byte order. */
  lemma {:induction false} GetPut(order: Order, n: nat, k: nat)
    requires n < Pow256(k)
    ensures Get(order, Put(order, n, k)) == n
  {
    DecodeEncode(n, k);
    if order.Big? {
      assert Reverse(Reverse(Encode(n, k))) == Encode(n, k);
    }
  }

  lemma {:induction false} DecodeBound(s: seq<byte>)
    ensures Decode(s) < Pow256(|s|)
  {
    if s != [] {
      DecodeBound(s[1..]);
    }
  }

  lemma {:induction false} EncodeDecode(s: seq<byte>)
    ensures Encode(Decode(s), |s|) == s
  {
    if s != [] {
      EncodeDecode(s[1..]);
      assert Decode(s) % 256 == s[0] && Decode(s) / 256 == Decode(s[1..]);
    }
  }

  /** Putting back what was read, in the same byte order. */
  lemma {:induction false} PutGet(order: Order, s: seq<byte>)
    ensures Get(order, s) < Pow256(|s|)
    ensures Put(order, Get(order, s), |s|) == s
  {
    if order.Little? {
      DecodeBound(s);
      EncodeDecode(s);
    } else {
      DecodeBound(Reverse(s));
      EncodeDecode(Reverse(s));
      assert Reverse(Reverse(s)) == s;
    }
  }
}
