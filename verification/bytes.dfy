/**
  Bytes, big-endian integers and the bitwise operators the codec relies on.
  Exclusive-or and or are defined bit by bit, from the lowest bit upwards.
*/
module Bytes {

  type Byte = x: int | 0 <= x < 0x100
  type U16 = x: int | 0 <= x < 0x1_0000
  type U32 = x: int | 0 <= x < 0x1_0000_0000

  /** A byte string: network data as well as the contents of a Go string. */
  type Text = seq<Byte>

  // ---- bitwise operators ----

  function XorBits(a: nat, b: nat): nat {
    if a == 0 && b == 0 then 0
    else (if a % 2 == b % 2 then 0 else 1) + 2 * XorBits(a / 2, b / 2)
  }

  function OrBits(a: nat, b: nat): nat {
    if a == 0 && b == 0 then 0
    else (if a % 2 == 0 && b % 2 == 0 then 0 else 1) + 2 * OrBits(a / 2, b / 2)
  }

  function Pow2(k: nat): nat {
    if k == 0 then 1 else 2 * Pow2(k - 1)
  }

  lemma {:induction false} BitsBound(a: nat, b: nat, k: nat)
    requires a < Pow2(k) && b < Pow2(k)
    ensures XorBits(a, b) < Pow2(k)
    ensures OrBits(a, b) < Pow2(k)
  {
    if a != 0 || b != 0 {
      BitsBound(a / 2, b / 2, k - 1);
    }
  }

  function Xor(a: Byte, b: Byte): Byte {
    BitsBound(a, b, 8);
    assert Pow2(8) == 0x100;
    XorBits(a, b)
  }

  function Or(a: Byte, b: Byte): Byte {
    BitsBound(a, b, 8);
    assert Pow2(8) == 0x100;
    OrBits(a, b)
  }

  lemma {:induction false} XorHalves(a: nat, b: nat)
    ensures XorBits(a, b) / 2 == XorBits(a / 2, b / 2)
    ensures XorBits(a, b) % 2 == if a % 2 == b % 2 then 0 else 1
  {
  }

  lemma {:induction false} XorAssociative(a: nat, b: nat, c: nat)
    ensures XorBits(XorBits(a, b), c) == XorBits(a, XorBits(b, c))
    decreases a + b + c
  {
    if a != 0 || b != 0 || c != 0 {
      XorAssociative(a / 2, b / 2, c / 2);
      XorHalves(a, b);
      XorHalves(b, c);
      XorHalves(XorBits(a, b), c);
      XorHalves(a, XorBits(b, c));
    }
  }

  lemma {:induction false} XorCommutative(a: nat, b: nat)
    ensures XorBits(a, b) == XorBits(b, a)
  {
    if a != 0 || b != 0 {
      XorCommutative(a / 2, b / 2);
    }
  }

  lemma {:induction false} XorVanishes(a: nat, b: nat)
    ensures XorBits(a, b) == 0 <==> a == b
  {
    if a != 0 || b != 0 {
      XorVanishes(a / 2, b / 2);
    }
  }

  lemma {:induction false} XorUnit(a: nat)
    ensures XorBits(a, 0) == a
    ensures XorBits(0, a) == a
  {
    if a != 0 {
      XorUnit(a / 2);
    }
  }

  lemma {:induction false} OrUnit(a: nat)
    ensures OrBits(0, a) == a
    ensures OrBits(a, 0) == a
  {
    if a != 0 {
      OrUnit(a / 2);
    }
  }

  lemma OrDouble(a: nat, b: nat)
    ensures OrBits(2 * a, b) == 2 * OrBits(a, b / 2) + b % 2
  {
  }

  lemma OrQuadruple(a: nat, b: nat)
    ensures OrBits(4 * a, b) == 4 * OrBits(a, b / 4) + b % 4
  {
    OrDouble(2 * a, b);
    OrDouble(a, b / 2);
  }

  /** A low nibble can be dropped into a byte whose own low nibble is clear. */
  lemma OrNibble(high: nat, low: nat)
    requires low < 16
    ensures OrBits(16 * high, low) == 16 * high + low
  {
    OrQuadruple(4 * high, low);
    OrQuadruple(high, low / 4);
    OrUnit(high);
  }

  // ---- the running checksum ----

  /** The exclusive-or of all bytes of s. */
  function XorAll(s: seq<Byte>): Byte {
    if s == [] then 0 else Xor(XorAll(s[..|s| - 1]), s[|s| - 1])
  }

  lemma {:induction false} XorAllConcat(a: seq<Byte>, b: seq<Byte>)
    ensures XorAll(a + b) == Xor(XorAll(a), XorAll(b))
  {
    if b == [] {
      assert a + b == a;
      XorUnit(XorAll(a));
    } else {
      var init, last := b[..|b| - 1], b[|b| - 1];
      assert (a + b)[..|a + b| - 1] == a + init;
      XorAllConcat(a, init);
      XorAssociative(XorAll(a), XorAll(init), last);
    }
  }

  // ---- big-endian integers ----

  function PutU16(v: U16): seq<Byte> {
    [v / 0x100, v % 0x100]
  }

  function PutU32(v: U32): seq<Byte> {
    PutU16(v / 0x1_0000) + PutU16(v % 0x1_0000)
  }

  function GetU16(s: seq<Byte>, at: nat): U16
    requires at + 2 <= |s|
  {
    s[at] as int * 0x100 + s[at + 1]
  }

  function GetU32(s: seq<Byte>, at: nat): U32
    requires at + 4 <= |s|
  {
    GetU16(s, at) as int * 0x1_0000 + GetU16(s, at + 2)
  }

  /** Reading at the place where an integer was written gives the integer back. */
  lemma U16RoundTrip(before: seq<Byte>, v: U16, after: seq<Byte>)
    ensures GetU16(before + PutU16(v) + after, |before|) == v
  {
    var s := before + PutU16(v) + after;
    assert s[|before|] == v / 0x100 && s[|before| + 1] == v % 0x100;
  }

  lemma U32RoundTrip(before: seq<Byte>, v: U32, after: seq<Byte>)
    ensures GetU32(before + PutU32(v) + after, |before|) == v
  {
    var high, low := PutU16(v / 0x1_0000), PutU16(v % 0x1_0000);
    U16RoundTrip(before, v / 0x1_0000, low + after);
    U16RoundTrip(before + high, v % 0x1_0000, after);
    assert before + PutU32(v) + after == before + high + (low + after) == (before + high) + low + after;
  }

  lemma PutU16Injective(a: U16, b: U16)
    ensures PutU16(a) == PutU16(b) <==> a == b
  {
    assert PutU16(a)[0] == a / 0x100 && PutU16(a)[1] == a % 0x100;
    assert PutU16(b)[0] == b / 0x100 && PutU16(b)[1] == b % 0x100;
  }

  /** And writing back what was read gives the bytes back. */
  lemma U16Inverse(s: seq<Byte>, at: nat)
    requires at + 2 <= |s|
    ensures PutU16(GetU16(s, at)) == s[at..at + 2]
  {
  }

  // ---- small sequence helpers ----

  function Repeat(b: Byte, n: nat): (s: seq<Byte>)
    ensures |s| == n && forall i :: 0 <= i < n ==> s[i] == b
  {
    seq(n, _ => b)
  }

  function Min(a: nat, b: nat): nat {
    if a < b then a else b
  }
}
