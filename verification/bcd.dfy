/**
  The packed-decimal phone field: six bytes, two digits a byte, unused nibbles
  filled with 0xf (JT/T 808-2013 section 4.4.3).
*/
module Bcd {
  import opened Bytes

  const ZERO: Byte := 0x30   // '0'
  const FILLER: Byte := 0x0f
  const FIELD: nat := 6
  const DIGITS: nat := 12

  // ---- decoding ----

  function Digit(nibble: Byte): Text
    requires nibble <= FILLER
  {
    if nibble < FILLER then [ZERO + nibble] else []
  }

  function Decode(b: seq<Byte>): Text {
    if b == [] then []
    else
      var last := b[|b| - 1];
      Decode(b[..|b| - 1]) + Digit(last / 16) + Digit(last % 16)
  }

  method DecodeBCD(b: seq<Byte>) returns (digits: Text)
    ensures digits == Decode(b)
  {
    digits := [];
    for i := 0 to |b|
      invariant digits == Decode(b[..i])
    {
      var hi, lo := b[i] / 16, b[i] % 16;
      assert b[..i + 1][..i] == b[..i];
      if hi != FILLER {
        digits := digits + [ZERO + hi];
      }
      if lo != FILLER {
        digits := digits + [ZERO + lo];
      }
    }
    assert b[..|b|] == b;
  }

  // ---- encoding ----

  /** The byte ch - '0', with Go's wrap-around. */
  function Offset(ch: Byte): Byte {
    (ch - ZERO) % 0x100
  }

  /** Byte k of the field. A character out of range spills into its neighbour, as the masks let it. */
  function Packed(phone: Text, k: nat): Byte {
    if 2 * k >= |phone| then 0xff
    else
      var high := 16 * (Offset(phone[2 * k]) % 16);
      if 2 * k + 1 >= |phone| then high + FILLER
      else Or(high, Offset(phone[2 * k + 1]))
  }

  function Encode(phone: Text): (b: seq<Byte>)
    ensures |b| == FIELD
  {
    seq(FIELD, k requires 0 <= k < FIELD => Packed(phone, k))
  }

  method EncodeBCD(phone: Text) returns (b: array<Byte>)
    ensures fresh(b) && b[..] == Encode(phone)
  {
    b := new Byte[6](_ => 0xff);
    var i := 0;
    while i < |phone| && i < 12
      invariant 0 <= i <= |phone| && i <= 12
      invariant b.Length == 6
      invariant forall k :: 0 <= k < 6 ==> b[k] == Packed(phone[..i], k)
    {
      var nibble := Offset(phone[i]);
      if i % 2 == 0 {
        b[i / 2] := 16 * (nibble % 16) + 0x0f;
      } else {
        b[i / 2] := Or(16 * (b[i / 2] / 16), nibble);
      }
      i := i + 1;
    }
    forall k | 0 <= k < 6 ensures b[k] == Packed(phone, k) {
      if i < |phone| {
        assert Packed(phone[..12], k) == Packed(phone, k);
      }
    }
  }

  // ---- theorems ----

  /** The nibbles of b, high nibble first. */
  function Nibbles(b: seq<Byte>): (n: seq<Byte>)
    ensures |n| == 2 * |b|
    ensures forall i :: 0 <= i < |n| ==> n[i] <= FILLER
  {
    if b == [] then []
    else
      var last := b[|b| - 1];
      Nibbles(b[..|b| - 1]) + [last / 16] + [last % 16]
  }

  lemma {:induction false} NibbleAt(b: seq<Byte>, k: nat)
    requires k < |b|
    ensures Nibbles(b)[2 * k] == b[k] / 16 && Nibbles(b)[2 * k + 1] == b[k] % 16
  {
    if k < |b| - 1 {
      NibbleAt(b[..|b| - 1], k);
    }
  }

  /** The digit characters of all nibbles but the fillers. */
  function Digits(nibbles: seq<Byte>): Text
    requires forall i :: 0 <= i < |nibbles| ==> nibbles[i] <= FILLER
  {
    if nibbles == [] then []
    else Digits(nibbles[..|nibbles| - 1]) + Digit(nibbles[|nibbles| - 1])
  }

  lemma {:induction false} DecodeByNibbles(b: seq<Byte>)
    ensures Decode(b) == Digits(Nibbles(b))
  {
    if b != [] {
      var init, last := b[..|b| - 1], b[|b| - 1];
      DecodeByNibbles(init);
      DigitsSnoc(Nibbles(init), last / 16);
      DigitsSnoc(Nibbles(init) + [last / 16], last % 16);
    }
  }

  lemma DigitsSnoc(nibbles: seq<Byte>, last: Byte)
    requires last <= FILLER && forall i :: 0 <= i < |nibbles| ==> nibbles[i] <= FILLER
    ensures Digits(nibbles + [last]) == Digits(nibbles) + Digit(last)
  {
    assert (nibbles + [last])[..|nibbles|] == nibbles;
  }

  /** The characters the field can carry: '0' to '>', one for each nibble but the filler. */
  predicate Packable(phone: Text) {
    forall i :: 0 <= i < |phone| ==> ZERO <= phone[i] < ZERO + FILLER
  }

  function Carried(phone: Text): Text {
    phone[..Min(|phone|, DIGITS)]
  }

  lemma {:induction false} DigitsPackable(nibbles: seq<Byte>)
    requires forall i :: 0 <= i < |nibbles| ==> nibbles[i] <= FILLER
    ensures Packable(Digits(nibbles)) && |Digits(nibbles)| <= |nibbles|
  {
    if nibbles != [] {
      DigitsPackable(nibbles[..|nibbles| - 1]);
    }
  }

  /** The nibble the field holds at position i when the phone is packable. */
  function Nibble(phone: Text, i: nat): int {
    if i < |phone| then phone[i] - ZERO else FILLER
  }

  /** Nibbles that are digits first and fillers after decode to exactly those digits. */
  lemma {:induction false} DigitsOfPadded(digits: Text, nibbles: seq<Byte>)
    requires forall i :: 0 <= i < |nibbles| ==> nibbles[i] <= FILLER
    requires Packable(digits) && |digits| <= |nibbles|
    requires forall i :: 0 <= i < |nibbles| ==> nibbles[i] == Nibble(digits, i)
    ensures Digits(nibbles) == digits
  {
    if nibbles != [] {
      var init := nibbles[..|nibbles| - 1];
      if |digits| == |nibbles| {
        DigitsOfPadded(digits[..|digits| - 1], init);
      } else {
        DigitsOfPadded(digits, init);
      }
    }
  }

  lemma PackedNibbles(phone: Text, k: nat)
    requires k < FIELD && Packable(Carried(phone))
    ensures Packed(phone, k) / 16 == Nibble(phone, 2 * k)
    ensures Packed(phone, k) % 16 == Nibble(phone, 2 * k + 1)
  {
    if 2 * k < |phone| {
      var high := Carried(phone)[2 * k] - ZERO;
      assert Offset(phone[2 * k]) % 16 == high;
      if 2 * k + 1 < |phone| {
        var low := Carried(phone)[2 * k + 1] - ZERO;
        assert Offset(phone[2 * k + 1]) == low;
        OrNibble(high, low);
      }
    }
  }

  lemma EncodedNibbles(phone: Text)
    requires Packable(Carried(phone))
    ensures forall i :: 0 <= i < DIGITS ==> Nibbles(Encode(phone))[i] == Nibble(phone, i)
  {
    forall i | 0 <= i < DIGITS ensures Nibbles(Encode(phone))[i] == Nibble(phone, i) {
      var k := i / 2;
      PackedNibbles(phone, k);
      NibbleAt(Encode(phone), k);
      assert i == 2 * k || i == 2 * k + 1;
    }
  }

  /** The field carries a phone faithfully, up to twelve characters, exactly when they are all packable. */
  lemma DecodeOfEncode(phone: Text)
    ensures Decode(Encode(phone)) == Carried(phone) <==> Packable(Carried(phone))
  {
    DecodeByNibbles(Encode(phone));
    DigitsPackable(Nibbles(Encode(phone)));
    if Packable(Carried(phone)) {
      EncodedNibbles(phone);
      DigitsOfPadded(Carried(phone), Nibbles(Encode(phone)));
    }
  }

  /** No filler nibble stands before a digit nibble. */
  predicate PaddedAtEnd(b: seq<Byte>) {
    forall i, j :: 0 <= i < j < 2 * |b| && Nibbles(b)[i] == FILLER ==> Nibbles(b)[j] == FILLER
  }

  lemma {:induction false} DigitsOfPrefix(nibbles: seq<Byte>)
    requires forall i :: 0 <= i < |nibbles| ==> nibbles[i] <= FILLER
    requires forall i, j :: 0 <= i < j < |nibbles| && nibbles[i] == FILLER ==> nibbles[j] == FILLER
    ensures var d := Digits(nibbles);
            |d| <= |nibbles| && forall i :: 0 <= i < |nibbles| ==> nibbles[i] == Nibble(d, i)
  {
    if nibbles != [] {
      var init := nibbles[..|nibbles| - 1];
      DigitsOfPrefix(init);
      var d := Digits(init);
      assert |d| < |init| ==> init[|d|] == nibbles[|d|] == FILLER;
    }
  }

  lemma SameNibbles(a: seq<Byte>, b: seq<Byte>)
    requires |a| == |b| && forall i :: 0 <= i < 2 * |a| ==> Nibbles(a)[i] == Nibbles(b)[i]
    ensures a == b
  {
    forall k | 0 <= k < |a| ensures a[k] == b[k] {
      NibbleAt(a, k);
      NibbleAt(b, k);
    }
  }

  /**
    Decoding and encoding again normalises a phone field: the phone stays the same, a second
    round changes nothing, and the first changes nothing exactly when the fillers come last.
  */
  lemma EncodeOfDecode(b: seq<Byte>)
    requires |b| == FIELD
    ensures var c := Encode(Decode(b));
            Decode(c) == Decode(b) && Encode(Decode(c)) == c && (c == b <==> PaddedAtEnd(b))
  {
    var d := Decode(b);
    DecodeByNibbles(b);
    DigitsPackable(Nibbles(b));
    assert Carried(d) == d;
    DecodeOfEncode(d);
    EncodedNibbles(d);
    if PaddedAtEnd(b) {
      DigitsOfPrefix(Nibbles(b));
      SameNibbles(Encode(d), b);
    }
  }
}
