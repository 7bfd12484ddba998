/** The bytes of a frame, written out: what is where, in numbers (JT/T 808-2013 sections 4.4.1 to 4.4.4). */
module Layout {
  import opened Bytes
  import opened Wire
  import opened WireTheorems
  import Bcd
  import Corruption
  import World

  // ---- integers ----

  /** Two bytes, the first one high. */
  function Word(high: int, low: int): int {
    256 * high + low
  }

  /** Integers are written big-endian. */
  lemma BigEndian(s: seq<Byte>, at: nat, v: U16, w: U32)
    requires at + 4 <= |s|
    ensures GetU16(s, at) == Word(s[at], s[at + 1])
    ensures GetU32(s, at) == 65536 * Word(s[at], s[at + 1]) + Word(s[at + 2], s[at + 3])
    ensures PutU16(v) == [v / 256, v % 256]
    ensures var b := PutU32(w); |b| == 4 && 65536 * Word(b[0], b[1]) + Word(b[2], b[3]) == w
  {
  }

  // ---- escaping ----

  /** Escaping works byte by byte: 7e becomes 7d 02, 7d becomes 7d 01, and every other byte stays. */
  lemma EscapeRules(raw: seq<Byte>, b: Byte)
    ensures Escape([]) == []
    ensures Escape(raw + [b]) == Escape(raw) + if b == 0x7e then [0x7d, 0x02] else if b == 0x7d then [0x7d, 0x01] else [b]
  {
    EscapeSnoc(raw, b);
  }

  // ---- the phone ----

  /** One byte more of a phone field: a character for each nibble but f, '0' to '>'. */
  lemma PhoneByte(b: seq<Byte>, x: Byte)
    ensures Bcd.Decode([]) == []
    ensures Bcd.Decode(b + [x]) ==
            Bcd.Decode(b) + (if x / 16 < 15 then [0x30 + x / 16] else []) + (if x % 16 < 15 then [0x30 + x % 16] else [])
  {
    assert (b + [x])[..|b|] == b;
  }

  /** Characters '0' to '>': the digits and the five that follow them. */
  predicate Dialled(phone: Text) {
    forall i :: 0 <= i < |phone| ==> 0x30 <= phone[i] <= 0x3e
  }

  function FirstTwelve(phone: Text): Text {
    if |phone| <= 12 then phone else phone[..12]
  }

  /** The nibble a field holds at position i: the digit, or f behind the last one. */
  function DigitAt(phone: Text, i: nat): int {
    if i < |phone| then phone[i] as int - 0x30 else 15
  }

  /** A phone is packed two characters to a byte, the first one high, and filled up with f. */
  lemma PhoneField(phone: Text, k: nat)
    requires Dialled(FirstTwelve(phone)) && k < 6
    ensures |Bcd.Encode(phone)| == 6
    ensures Bcd.Encode(phone)[k] == 16 * DigitAt(phone, 2 * k) + DigitAt(phone, 2 * k + 1)
  {
    Bcd.PackedNibbles(phone, k);
    hide Bcd.Packed;
    var b := Bcd.Encode(phone)[k];
    assert b == 16 * (b / 16) + b % 16;
  }

  /** For any text: an odd character adds all its eight bits, so what does not fit a nibble spills into its neighbour. */
  lemma AnyPhoneField(phone: Text, k: nat)
    requires k < 6
    ensures var b := Bcd.Encode(phone);
            && |b| == 6
            && (2 * k >= |phone| ==> b[k] == 0xff)
            && (2 * k + 1 == |phone| ==> b[k] == 16 * Low(Above(phone[2 * k])) + 15)
            && (2 * k + 1 < |phone| ==>
                 && b[k] / 16 == OrBits(Low(Above(phone[2 * k])), Above(phone[2 * k + 1]) / 16)
                 && b[k] % 16 == Low(Above(phone[2 * k + 1])))
  {
    hide Or, OrBits, Above, Low, Bcd.Packed;
    PackedBy(phone, k);
    assert Bcd.Encode(phone)[k] == Bcd.Packed(phone, k);
    if 2 * k + 1 < |phone| {
      Spilling(Above(phone[2 * k]), Above(phone[2 * k + 1]));
    }
  }

  lemma OffsetIs(ch: Byte)
    ensures Bcd.Offset(ch) == Above(ch) && Above(ch) < 256 && Low(Above(ch)) < 16
  {
  }

  lemma PackedBy(phone: Text, k: nat)
    ensures 2 * k >= |phone| ==> Bcd.Packed(phone, k) == 0xff
    ensures 2 * k + 1 == |phone| ==> Bcd.Packed(phone, k) == 16 * Low(Above(phone[2 * k])) + 15
    ensures 2 * k + 1 < |phone| ==>
              Bcd.Packed(phone, k) == OrBits(16 * Low(Above(phone[2 * k])), Above(phone[2 * k + 1]))
  {
    hide OrBits, Bcd.Offset;
    if 2 * k < |phone| {
      OffsetIs(phone[2 * k]);
    }
    if 2 * k + 1 < |phone| {
      OffsetIs(phone[2 * k + 1]);
    }
  }

  lemma Spilling(high: nat, low: nat)
    ensures OrBits(16 * Low(high), low) / 16 == OrBits(Low(high), low / 16)
    ensures OrBits(16 * Low(high), low) % 16 == Low(low)
  {
    hide OrBits;
    OrHigh(Low(high), low);
    SixteenFold(OrBits(Low(high), low / 16), low % 16);
  }

  lemma SixteenFold(x: nat, y: nat)
    requires y < 16
    ensures (16 * x + y) / 16 == x && (16 * x + y) % 16 == y
  {
  }

  /** How far a character lies above '0', in a byte; and the low four bits of a byte. */
  function Above(ch: Byte): nat {
    (ch as int + 256 - 0x30) % 256
  }

  function Low(n: nat): nat {
    n % 16
  }

  lemma OrHigh(a: nat, b: nat)
    ensures OrBits(16 * a, b) == 16 * OrBits(a, b / 16) + b % 16
  {
    OrQuadruple(4 * a, b);
    OrQuadruple(a, b / 4);
  }

  /** The first twelve characters arrive as they are exactly when they are of that range. */
  lemma PhoneArrivesExactly(phone: Text)
    ensures Bcd.Decode(Bcd.Encode(phone)) == FirstTwelve(phone) <==> Dialled(FirstTwelve(phone))
  {
    Bcd.DecodeOfEncode(phone);
  }

  // ---- reading ----

  /** The checksum and the fields of a frame that was read, from its unescaped bytes. */
  lemma FrameFromBytes(garbage: seq<Byte>, p: seq<Byte>, rest: seq<Byte>)
    requires 0x7e !in garbage && |p| >= 12
    ensures var r := Read(garbage + [0x7e] + Escape(p + [XorAll(p)]) + [0x7e] + rest);
            && r.used == |garbage| + 2 + |Escape(p + [XorAll(p)])|
            && r.outcome.Ok?
            && var f := r.outcome.value;
               var fragment := p[2] / 32 % 2 == 1;
               && f.msgId == Word(p[0], p[1])
               && f.phone == Bcd.Decode(p[4..10])
               && f.seqNum == Word(p[10], p[11])
               && f.subpackage == fragment
               && (!fragment ==> f.totalPkg == 0 && f.pkgSeq == 0 && f.body == p[12..])
               && (fragment && |p| >= 16 ==>
                    f.totalPkg == Word(p[12], p[13]) && f.pkgSeq == Word(p[14], p[15]) && f.body == p[16..])
               && (fragment && 14 <= |p| < 16 ==> f.totalPkg == Word(p[12], p[13]) && f.pkgSeq == 0 && f.body == [])
               && (fragment && |p| < 14 ==> f.totalPkg == 0 && f.pkgSeq == 0 && f.body == [])
  {
    hide Escape, XorAll, Bcd.Decode, Read;
    var s := garbage + [0x7e] + Escape(p + [XorAll(p)]) + [0x7e] + rest;
    assert s == garbage + Enclose(p) + rest;
    ReadFramed(s, garbage, p, rest);
    FragmentBit(p[2], p[3]);
  }

  lemma FragmentBit(high: Byte, low: Byte)
    ensures (high as int * 0x100 + low) / 0x2000 % 2 == high / 32 % 2
  {
    var n := high as int * 0x100 + low;
    assert n / 0x2000 == high / 32;
  }

  // ---- writing ----

  /** What is written, unescaped: the header, the body and the checksum, byte by byte. */
  lemma FrameToBytes(msgId: U16, phone: Text, seqNum: U16, body: Text) returns (p: seq<Byte>)
    ensures Written(msgId, phone, seqNum, body) == [0x7e] + Escape(p + [XorAll(p)]) + [0x7e]
    ensures |p| == 12 + |body| && p[4..10] == Bcd.Encode(phone) && p[12..] == body
    ensures Word(p[0], p[1]) == msgId && Word(p[10], p[11]) == seqNum
    ensures Word(p[2], p[3]) < 1024 && (|body| - (Word(p[2], p[3]))) % 1024 == 0
    ensures |body| < 1024 ==> Word(p[2], p[3]) == |body|
  {
    hide Escape, XorAll, Bcd.Encode;
    p := Payload(msgId, phone, seqNum, body);
    assert p[0] == msgId / 0x100 && p[1] == msgId % 0x100;
    assert p[2] == |body| % 1024 / 0x100 && p[3] == |body| % 1024 % 0x100;
    assert p[10] == seqNum / 0x100 && p[11] == seqNum % 0x100;
    assert (|body| - |body| % 1024) % 1024 == 0;
  }

  // ---- every outcome ----

  /** How a stream goes on behind an opening flag and the escaped bytes raw. */
  datatype Tail =
    | Nothing                          // the stream ends
    | Cut                              // it ends right after an escape byte
    | Wrong(b: Byte, rest: seq<Byte>)  // an escape byte is followed by neither 1 nor 2
    | Closed(rest: seq<Byte>)          // a flag
  {
    predicate Valid() {
      this.Wrong? ==> b != 0x01 && b != 0x02
    }

    function Bytes(): seq<Byte> {
      match this
      case Nothing => []
      case Cut => [0x7d]
      case Wrong(b, rest) => [0x7d, b] + rest
      case Closed(rest) => [0x7e] + rest
    }
  }

  /** The outcome for every stream with a flag, errors by kind, and the bytes consumed. */
  lemma EveryOutcome(garbage: seq<Byte>, raw: seq<Byte>, tail: Tail)
    requires 0x7e !in garbage && tail.Valid()
    ensures var r, n := Read(garbage + [0x7e] + (Escape(raw) + tail.Bytes())), |garbage| + 1 + |Escape(raw)|;
            match tail
            case Nothing => r == Reading(Err(MidFrame), n)
            case Cut => r == Reading(Err(EscapeCut), n + 1)
            case Wrong(b, _) => r == Reading(Err(BadEscape(b)), n + 2)
            case Closed(_) =>
              && r.used == n + 1
              && (|raw| < 13 ==> r.outcome == Err(TooShort(|raw|)))
              && (|raw| >= 13 && XorAll(raw[..|raw| - 1]) != raw[|raw| - 1] ==>
                   r.outcome == Err(BadChecksum(XorAll(raw[..|raw| - 1]), raw[|raw| - 1])))
              && (r.outcome.Ok? <==> |raw| >= 13 && XorAll(raw[..|raw| - 1]) == raw[|raw| - 1])
  {
    hide Escape, Skip, Collect, XorAll;
    var inner := Escape(raw) + tail.Bytes();
    var s := garbage + [0x7e] + inner;
    SkipGarbage(garbage, inner);
    assert s[|garbage| + 1..] == inner;
    Corruption.CollectGoesOn(raw, tail.Bytes());
    TailCollected(tail);
    assert raw + [] == raw;
  }

  lemma TailCollected(tail: Tail)
    requires tail.Valid()
    ensures Collect(tail.Bytes()) ==
            match tail
            case Nothing => Interior.Broken(MidFrame, 0)
            case Cut => Interior.Broken(EscapeCut, 1)
            case Wrong(b, _) => Interior.Broken(BadEscape(b), 2)
            case Closed(_) => Interior.Closed([], 1)
  {
  }

  /** Every stream has no flag at all, and reads as the end of the input, or is of that shape. */
  lemma EveryStream(s: seq<Byte>) returns (garbage: seq<Byte>, raw: seq<Byte>, tail: Tail)
    ensures 0x7e !in s ==> Read(s) == Reading(Err(EndOfInput), |s|)
    ensures 0x7e in s ==> 0x7e !in garbage && tail.Valid() && s == garbage + [0x7e] + (Escape(raw) + tail.Bytes())
  {
    hide Escape, Collect;
    var k := Skip(s);
    SkipsOnlyGarbage(s);
    garbage, raw, tail := s, [], Nothing;
    if k < |s| {
      raw, tail := EveryInterior(s[k + 1..]);
      garbage := s[..k];
      assert s == s[..k] + [s[k]] + s[k + 1..];
    } else {
      assert s[..k] == s;
    }
  }

  lemma {:induction false} EveryInterior(s: seq<Byte>) returns (raw: seq<Byte>, tail: Tail)
    ensures tail.Valid() && s == Escape(raw) + tail.Bytes()
    decreases |s|
  {
    hide Escape, EscapeByte;
    if Plainly(s) {
      var b, n := HeadEscaped(s);
      var more: seq<Byte>;
      more, tail := EveryInterior(s[n..]);
      raw := [b] + more;
      EscapeCons(b, more);
      assert s == s[..n] + s[n..];
      assert EscapeByte(b) + (Escape(more) + tail.Bytes()) == EscapeByte(b) + Escape(more) + tail.Bytes();
    } else {
      raw := [];
      EscapeRules([], 0);
      tail := EndOf(s);
      assert [] + tail.Bytes() == s;
    }
  }

  /** s starts with an escaped byte. */
  predicate Plainly(s: seq<Byte>) {
    s != [] && s[0] != 0x7e && (s[0] == 0x7d ==> |s| > 1 && (s[1] == 0x01 || s[1] == 0x02))
  }

  lemma HeadEscaped(s: seq<Byte>) returns (b: Byte, n: nat)
    requires Plainly(s)
    ensures 0 < n <= |s| && s[..n] == EscapeByte(b)
  {
    b := if s[0] != 0x7d then s[0] else if s[1] == 0x01 then 0x7d else 0x7e;
    n := |EscapeByte(b)|;
  }

  lemma EndOf(s: seq<Byte>) returns (tail: Tail)
    requires !Plainly(s)
    ensures tail.Valid() && tail.Bytes() == s
  {
    tail := if s == [] then Nothing
            else if s[0] == 0x7e then Tail.Closed(s[1..])
            else if |s| == 1 then Cut
            else Wrong(s[1], s[2..]);
  }

  // ---- tokens ----

  predicate Digits(text: Text) {
    forall i :: 0 <= i < |text| ==> 0x30 <= text[i] <= 0x39
  }

  /** The number a text of decimal digits stands for. */
  function Value(digits: Text): int {
    if digits == [] then 0 else 10 * Value(digits[..|digits| - 1]) + (digits[|digits| - 1] as int - 0x30)
  }

  lemma {:induction false} DecimalIsValue(n: nat)
    ensures Value(World.Decimal(n)) == n && Digits(World.Decimal(n)) && World.Decimal(n) != []
    ensures n > 0 ==> World.Decimal(n)[0] != 0x30
  {
    var d := World.Decimal(n);
    if n >= 10 {
      DecimalIsValue(n / 10);
      assert d[..|d| - 1] == World.Decimal(n / 10);
    }
  }

  /** A token is the phone, an underscore, and the second in decimal without leading zeros. */
  lemma TokenText(phone: Text, now: nat)
    ensures var t := World.Token(phone, now);
            && |t| > |phone| + 1 && t[..|phone|] == phone && t[|phone|] == 0x5f
            && Digits(t[|phone| + 1..]) && Value(t[|phone| + 1..]) == now && (now > 0 ==> t[|phone| + 1] != 0x30)
  {
    hide World.Decimal;
    DecimalIsValue(now);
    var t := World.Token(phone, now);
    assert t[|phone| + 1..] == World.Decimal(now);
  }
}
