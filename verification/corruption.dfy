/** Which changes of a single byte on the wire go unnoticed. */
module Corruption {
  import opened Bytes
  import opened Wire
  import opened WireTheorems

  // ---- the places in a frame ----

  /** Flags, the first or only byte an interior byte is written as, and the second byte of an escape pair. */
  datatype Spot = Opening | Unit(j: nat) | Second(j: nat) | Closing {
    predicate Valid(raw: seq<Byte>) {
      match this
      case Opening => true
      case Unit(j) => j < |raw|
      case Second(j) => j < |raw| && |EscapeByte(raw[j])| == 2
      case Closing => true
    }

    /** Where it is among the bytes of the frame. */
    function At(raw: seq<Byte>): nat
      requires Valid(raw)
    {
      match this
      case Opening => 0
      case Unit(j) => 1 + |Escape(raw[..j])|
      case Second(j) => 2 + |Escape(raw[..j])|
      case Closing => 1 + |Escape(raw)|
    }
  }

  function Framing(raw: seq<Byte>): seq<Byte> {
    [FLAG] + Escape(raw) + [FLAG]
  }

  lemma EscapeParts(raw: seq<Byte>, j: nat)
    requires j < |raw|
    ensures Escape(raw) == Escape(raw[..j]) + EscapeByte(raw[j]) + Escape(raw[j + 1..])
  {
    assert raw[j := raw[j]] == raw;
    EscapeAround(raw, j, raw[j]);
  }

  lemma {:induction false} InteriorSpot(raw: seq<Byte>, n: nat) returns (spot: Spot)
    requires n < |Escape(raw)|
    ensures spot.Valid(raw) && (spot.Unit? || spot.Second?) && spot.At(raw) == 1 + n
    decreases |raw|
  {
    var init, last := raw[..|raw| - 1], raw[|raw| - 1];
    assert raw == init + [last];
    EscapeSnoc(init, last);
    if n < |Escape(init)| {
      spot := InteriorSpot(init, n);
      assert init[..spot.j] == raw[..spot.j];
    } else {
      spot := if n == |Escape(init)| then Unit(|raw| - 1) else Second(|raw| - 1);
    }
  }

  /** Every byte of a frame is at one of these places. */
  lemma EveryByteHasASpot(raw: seq<Byte>, i: nat) returns (spot: Spot)
    requires i < |Framing(raw)|
    ensures spot.Valid(raw) && spot.At(raw) == i
  {
    if i == 0 {
      spot := Opening;
    } else if i == |Framing(raw)| - 1 {
      spot := Closing;
    } else {
      spot := InteriorSpot(raw, i - 1);
    }
  }

  // ---- which changes slip through ----

  /**
    The change of the byte at spot to b is accepted: a flag cuts the frame where the bytes before
    it happen to check; an escape swallows a literal 1 or 2 after the byte 7c; an escape pair
    falls apart into 7c and the literal 1 or 2; the closing flag becomes a zero byte and another
    frame follows, whose opening flag closes this one.
  */
  predicate Slips(raw: seq<Byte>, spot: Spot, b: Byte, followed: bool)
    requires spot.Valid(raw)
  {
    match spot
    case Opening => false
    case Second(_) => false
    case Closing => b == 0 && followed
    case Unit(j) =>
      if b == FLAG then j > HEADER && XorAll(raw[..j]) == 0
      else if b == ESCAPE then
        |raw| > HEADER + 1 && raw[j] == 0x7c && j + 1 < |raw| && (raw[j + 1] == 0x01 || raw[j + 1] == 0x02)
      else |EscapeByte(raw[j])| == 2 && b == 0x7c
  }

  /** What collecting comes to when raw was collected before. */
  function Behind(raw: seq<Byte>, n: nat, c: Interior): Interior {
    if c.Closed? then Closed(raw + c.raw, n + c.used) else Broken(c.error, n + c.used)
  }

  lemma BehindOne(b: Byte, n: nat, raw: seq<Byte>, m: nat, c: Interior)
    ensures Behind(raw, m, c).Push(b, n) == Behind([b] + raw, n + m, c)
    ensures Behind([], 0, c) == c
  {
    if c.Closed? {
      assert [b] + (raw + c.raw) == [b] + raw + c.raw && [] + c.raw == c.raw;
    }
  }

  /** Collecting goes through an escaped beginning and on. */
  lemma {:induction false} CollectGoesOn(raw: seq<Byte>, s: seq<Byte>)
    ensures Collect(Escape(raw) + s) == Behind(raw, |Escape(raw)|, Collect(s))
    decreases |raw|
  {
    hide Collect, EscapeByte, Behind;
    if raw == [] {
      assert Escape(raw) + s == s;
      BehindOne(0, 0, [], 0, Collect(s));
    } else {
      CollectGoesOn(raw[1..], s);
      assert [raw[0]] + raw[1..] == raw;
      CollectCons(raw[0], Escape(raw[1..]) + s);
      assert Escape(raw) + s == EscapeByte(raw[0]) + (Escape(raw[1..]) + s);
      BehindOne(raw[0], |EscapeByte(raw[0])|, raw[1..], |Escape(raw[1..])|, Collect(s));
    }
  }

  /** Reading a stream whose first flag is followed by an escaped beginning. */
  lemma ReadGoesOn(garbage: seq<Byte>, raw: seq<Byte>, s: seq<Byte>)
    requires FLAG !in garbage
    ensures Read(garbage + [FLAG] + (Escape(raw) + s)).outcome ==
            if Collect(s).Closed? then Finish(raw + Collect(s).raw) else Err(Collect(s).error)
  {
    hide Collect, Finish, Skip, Escape;
    var inner := Escape(raw) + s;
    SkipGarbage(garbage, inner);
    assert (garbage + [FLAG] + inner)[|garbage| + 1..] == inner;
    CollectGoesOn(raw, s);
  }

  // ---- sums of checksums ----

  lemma XorSwap(a: Byte, x: Byte, z: Byte)
    ensures Xor(Xor(a, x), z) == Xor(Xor(a, z), x)
  {
    XorAssociative(a, x, z);
    XorAssociative(a, z, x);
    XorCommutative(x, z);
  }

  /** Two sequences that differ in their middles only check alike exactly when the middles do. */
  lemma XorAllMiddle(a: seq<Byte>, x: seq<Byte>, y: seq<Byte>, z: seq<Byte>)
    ensures XorAll(a + x + z) == XorAll(a + y + z) <==> XorAll(x) == XorAll(y)
  {
    hide XorAll;
    XorAllConcat(a + x, z);
    XorAllConcat(a + y, z);
    XorAllConcat(a, x);
    XorAllConcat(a, y);
    var p, q, r, s := XorAll(a), XorAll(x), XorAll(y), XorAll(z);
    XorSwap(p, q, s);
    XorSwap(p, r, s);
    XorCancel(Xor(p, s), q, r);
  }

  lemma XorAllPair(x: Byte, y: Byte)
    ensures XorAll([x, y]) == Xor(x, y) && XorAll([x]) == x
  {
    hide Xor;
    assert [x][..0] == [] && [x, y][..1] == [x];
    assert XorAll([x]) == Xor(XorAll([]), x) && XorAll([x, y]) == Xor(XorAll([x]), y);
    ZeroUnit(x);
  }

  lemma ZeroUnit(x: Byte)
    ensures XorAll([]) == 0 && Xor(0, x) == x
  {
    XorUnit(x);
  }

  lemma SpecialSums()
    ensures XorBits(0x7c, 0x01) == 0x7d && XorBits(0x7c, 0x02) == 0x7e
  {
    hide XorBits;
    XorHalves(0x7c, 0x01);
    XorUnit(0x3e);
    XorHalves(0x7c, 0x02);
    XorHalves(0x3e, 0x01);
    XorUnit(0x1f);
  }

  /** The only byte that makes up for an escape pair: 7c, with 1 for 7d, with 2 for 7e. */
  lemma PairChecks(y: Byte, low: Byte)
    requires low == 0x01 || low == 0x02
    ensures XorAll([y, low]) == XorAll([if low == 0x01 then ESCAPE else FLAG]) <==> y == 0x7c
  {
    hide XorAll, XorBits;
    var whole: Byte := if low == 0x01 then ESCAPE else FLAG;
    XorAllPair(y, low);
    XorAllPair(whole, low);
    SpecialSums();
    XorCommutative(y, low);
    XorCommutative(0x7c, low);
    XorCancel(low, y, 0x7c);
  }

  // ---- the places one by one ----

  /** The raw bytes split at j. */
  lemma SplitAt(raw: seq<Byte>, j: nat)
    requires j < |raw|
    ensures raw == raw[..j] + [raw[j]] + raw[j + 1..]
  {
  }

  /** An interior that was sealed checks; one that differs in its middle does so if the middles sum alike. */
  lemma MiddleAccepted(payload: seq<Byte>, a: seq<Byte>, x: seq<Byte>, y: seq<Byte>, z: seq<Byte>)
    requires |payload| >= HEADER && Seal(payload) == a + x + z
    ensures |a + x + z| > HEADER
    ensures Finish(a + y + z).Ok? <==> |a + y + z| > HEADER && XorAll(x) == XorAll(y)
  {
    hide XorAll;
    FinishSealed(payload);
    ChecksumAsParity(a + x + z);
    if |a + y + z| > HEADER {
      ChecksumAsParity(a + y + z);
      XorAllMiddle(a, x, y, z);
      XorVanishes(XorAll(a + x + z), 0);
    }
  }

  function SpotOf(raw: seq<Byte>, spot: Spot): (i: nat)
    requires spot.Valid(raw)
    ensures i < |Framing(raw)|
  {
    SpotInside(raw, spot);
    spot.At(raw)
  }

  function Changed(raw: seq<Byte>, spot: Spot, b: Byte): seq<Byte>
    requires spot.Valid(raw)
  {
    Framing(raw)[SpotOf(raw, spot) := b]
  }

  lemma SpotInside(raw: seq<Byte>, spot: Spot)
    requires spot.Valid(raw)
    ensures spot.At(raw) < |Framing(raw)|
    ensures Framing(raw)[spot.At(raw)] ==
            match spot
            case Unit(j) => EscapeByte(raw[j])[0]
            case Second(j) => EscapeByte(raw[j])[1]
            case _ => FLAG
  {
    if spot.Unit? || spot.Second? {
      EscapeParts(raw, spot.j);
      Inside(Escape(raw[..spot.j]), EscapeByte(raw[spot.j]), Escape(raw[spot.j + 1..]), if spot.Unit? then 0 else 1, 0);
    }
    hide Escape, EscapeByte;
  }

  lemma Inside(a: seq<Byte>, w: seq<Byte>, z: seq<Byte>, k: nat, b: Byte)
    requires k < |w|
    ensures var s := [FLAG] + (a + w + z) + [FLAG];
            && 1 + |a| + k < |s| && s[1 + |a| + k] == w[k]
            && s[1 + |a| + k := b] == [FLAG] + (a + (w[k := b] + z + [FLAG]))
  {
  }

  /** A byte of an interior changed: what follows the untouched beginning. */
  lemma InsideChanged(raw: seq<Byte>, spot: Spot, b: Byte)
    requires spot.Valid(raw) && (spot.Unit? || spot.Second?)
    ensures var w, k := EscapeByte(raw[spot.j]), if spot.Unit? then 0 else 1;
            Changed(raw, spot, b) == [FLAG] + (Escape(raw[..spot.j]) + (w[k := b] + Escape(raw[spot.j + 1..]) + [FLAG]))
  {
    EscapeParts(raw, spot.j);
    Inside(Escape(raw[..spot.j]), EscapeByte(raw[spot.j]), Escape(raw[spot.j + 1..]), if spot.Unit? then 0 else 1, b);
    hide Escape, EscapeByte;
  }

  /** What reading a changed frame comes to: what collecting its changed part comes to. */
  lemma ReadChanged(payload: seq<Byte>, spot: Spot, b: Byte, garbage: seq<Byte>, rest: seq<Byte>)
    requires spot.Valid(Seal(payload)) && (spot.Unit? || spot.Second?) && FLAG !in garbage
    ensures var raw, w, k := Seal(payload), EscapeByte(Seal(payload)[spot.j]), if spot.Unit? then 0 else 1;
            var c := Collect(w[k := b] + (Escape(raw[spot.j + 1..]) + [FLAG] + rest));
            Read(garbage + Changed(raw, spot, b) + rest).outcome ==
            if c.Closed? then Finish(raw[..spot.j] + c.raw) else Err(c.error)
  {
    hide Escape, Collect, Finish, Read, Seal, Changed;
    var raw, w, k := Seal(payload), EscapeByte(Seal(payload)[spot.j]), if spot.Unit? then 0 else 1;
    InsideChanged(raw, spot, b);
    var tail := w[k := b] + (Escape(raw[spot.j + 1..]) + [FLAG] + rest);
    assert garbage + Changed(raw, spot, b) + rest == garbage + [FLAG] + (Escape(raw[..spot.j]) + tail);
    ReadGoesOn(garbage, raw[..spot.j], tail);
  }

  /** The rest of the interior, once more. */
  lemma RestCollected(raw: seq<Byte>, j: nat, rest: seq<Byte>)
    requires j <= |raw|
    ensures Collect(Escape(raw[j..]) + [FLAG] + rest) == Closed(raw[j..], |Escape(raw[j..])| + 1)
  {
    CollectEscaped(raw[j..], rest);
  }

  /** The second byte of an escape pair: no change goes unnoticed. */
  lemma SecondChanged(payload: seq<Byte>, j: nat, b: Byte, garbage: seq<Byte>, rest: seq<Byte>)
    requires |payload| >= HEADER && FLAG !in garbage && Second(j).Valid(Seal(payload))
    requires b != EscapeByte(Seal(payload)[j])[1]
    ensures Read(garbage + Changed(Seal(payload), Second(j), b) + rest).outcome.Err?
  {
    hide Finish, Read, Escape, Seal, Changed, XorAll;
    var raw := Seal(payload);
    var t := Escape(raw[j + 1..]) + [FLAG] + rest;
    ReadChanged(payload, Second(j), b, garbage, rest);
    PairCollected(b, t);
    assert EscapeByte(raw[j])[1 := b] == [ESCAPE, b];
    if b == 0x01 || b == 0x02 {
      RestCollected(raw, j + 1, rest);
      var y: Byte := if b == 0x01 then ESCAPE else FLAG;
      SplitAt(raw, j);
      MiddleAccepted(payload, raw[..j], [raw[j]], [y], raw[j + 1..]);
      XorAllPair(y, 0);
      XorAllPair(raw[j], 0);
      assert raw[..j] + ([y] + raw[j + 1..]) == raw[..j] + [y] + raw[j + 1..];
    }
  }

  lemma PairCollected(b: Byte, t: seq<Byte>)
    ensures var c := Collect([ESCAPE, b] + t);
            if b == 0x01 then c == Collect(t).Push(ESCAPE, 2)
            else if b == 0x02 then c == Collect(t).Push(FLAG, 2)
            else c == Broken(BadEscape(b), 2)
  {
    assert ([ESCAPE, b] + t)[2..] == t;
  }

  /** A flag cuts the frame short. */
  lemma CutByFlag(payload: seq<Byte>, j: nat, garbage: seq<Byte>, rest: seq<Byte>)
    requires |payload| >= HEADER && FLAG !in garbage && j < |Seal(payload)|
    ensures var raw := Seal(payload);
            Read(garbage + Changed(raw, Unit(j), FLAG) + rest).outcome.Ok? <==> j > HEADER && XorAll(raw[..j]) == 0
  {
    hide Finish, Read, Escape, Seal, Changed, XorAll;
    var raw := Seal(payload);
    var w, t := EscapeByte(raw[j]), Escape(raw[j + 1..]) + [FLAG] + rest;
    ReadChanged(payload, Unit(j), FLAG, garbage, rest);
    CollectFlag(w[1..] + t);
    assert w[0 := FLAG] + t == [FLAG] + (w[1..] + t);
    assert raw[..j] + [] == raw[..j];
    PrefixAccepted(raw[..j]);
  }

  lemma PrefixAccepted(raw: seq<Byte>)
    ensures Finish(raw).Ok? <==> |raw| > HEADER && XorAll(raw) == 0
  {
    if |raw| > HEADER {
      ChecksumAsParity(raw);
    }
  }

  /** A literal in place of a literal, or of the first byte of an escape pair. */
  lemma LiteralInstead(payload: seq<Byte>, j: nat, b: Byte, garbage: seq<Byte>, rest: seq<Byte>)
    requires |payload| >= HEADER && FLAG !in garbage && j < |Seal(payload)|
    requires b != FLAG && b != ESCAPE && b != Seal(payload)[j]
    ensures var raw := Seal(payload);
            Read(garbage + Changed(raw, Unit(j), b) + rest).outcome.Ok? <==> |EscapeByte(raw[j])| == 2 && b == 0x7c
  {
    hide Finish, Read, Escape, Seal, Changed, XorAll;
    var raw := Seal(payload);
    var w, t := EscapeByte(raw[j]), Escape(raw[j + 1..]) + [FLAG] + rest;
    ReadChanged(payload, Unit(j), b, garbage, rest);
    if |w| == 2 {
      assert w[0 := b] + t == [b, w[1]] + t;
      PairFallsApart(payload, j, b, rest);
    } else {
      assert w[0 := b] + t == [b] + t;
      LiteralReplaced(payload, j, b, rest);
    }
  }

  lemma LiteralReplaced(payload: seq<Byte>, j: nat, b: Byte, rest: seq<Byte>)
    requires |payload| >= HEADER && j < |Seal(payload)| && b != FLAG && b != ESCAPE && b != Seal(payload)[j]
    ensures var raw, t := Seal(payload), Escape(Seal(payload)[j + 1..]) + [FLAG] + rest;
            var c := Collect([b] + t);
            c.Closed? && Finish(raw[..j] + c.raw).Err?
  {
    hide Finish, Escape, Seal, XorAll;
    var raw := Seal(payload);
    RestCollected(raw, j + 1, rest);
    LiteralCollected(b, Escape(raw[j + 1..]) + [FLAG] + rest);
    SplitAt(raw, j);
    MiddleAccepted(payload, raw[..j], [raw[j]], [b], raw[j + 1..]);
    XorAllPair(b, 0);
    XorAllPair(raw[j], 0);
    assert raw[..j] + ([b] + raw[j + 1..]) == raw[..j] + [b] + raw[j + 1..];
  }

  lemma PairFallsApart(payload: seq<Byte>, j: nat, b: Byte, rest: seq<Byte>)
    requires |payload| >= HEADER && j < |Seal(payload)| && b != FLAG && b != ESCAPE && |EscapeByte(Seal(payload)[j])| == 2
    ensures var raw, t := Seal(payload), Escape(Seal(payload)[j + 1..]) + [FLAG] + rest;
            var c := Collect([b, EscapeByte(raw[j])[1]] + t);
            c.Closed? && (Finish(raw[..j] + c.raw).Ok? <==> b == 0x7c)
  {
    hide Finish, Escape, Seal, XorAll;
    var raw := Seal(payload);
    var low, t := EscapeByte(raw[j])[1], Escape(raw[j + 1..]) + [FLAG] + rest;
    RestCollected(raw, j + 1, rest);
    LiteralCollected(low, t);
    LiteralCollected(b, [low] + t);
    assert [b, low] + t == [b] + ([low] + t);
    SplitAt(raw, j);
    MiddleAccepted(payload, raw[..j], [raw[j]], [b, low], raw[j + 1..]);
    PairChecks(b, low);
    assert raw[..j] + ([b] + ([low] + raw[j + 1..])) == raw[..j] + [b, low] + raw[j + 1..];
  }

  lemma LiteralCollected(b: Byte, t: seq<Byte>)
    requires b != FLAG && b != ESCAPE
    ensures Collect([b] + t) == Collect(t).Push(b, 1)
  {
    assert ([b] + t)[1..] == t;
  }

  /** An escape in place of a literal takes the next byte with it. */
  lemma EscapeInstead(payload: seq<Byte>, j: nat, garbage: seq<Byte>, rest: seq<Byte>)
    requires |payload| >= HEADER && FLAG !in garbage && j < |Seal(payload)| && |EscapeByte(Seal(payload)[j])| == 1
    ensures var raw := Seal(payload);
            Read(garbage + Changed(raw, Unit(j), ESCAPE) + rest).outcome.Ok? <==> Slips(raw, Unit(j), ESCAPE, true)
  {
    hide Finish, Read, Escape, Seal, Changed, XorAll;
    var raw := Seal(payload);
    var t := Escape(raw[j + 1..]) + [FLAG] + rest;
    ReadChanged(payload, Unit(j), ESCAPE, garbage, rest);
    assert EscapeByte(raw[j])[0 := ESCAPE] == [ESCAPE];
    if j + 1 == |raw| {
      EscapeNothing();
      assert raw[j + 1..] == [];
      assert [ESCAPE] + t == [ESCAPE, FLAG] + rest;
      PairCollected(FLAG, rest);
    } else {
      var next, u := raw[j + 1], Escape(raw[j + 2..]) + [FLAG] + rest;
      assert raw[j + 1..] == [next] + raw[j + 2..];
      EscapeCons(next, raw[j + 2..]);
      var w := EscapeByte(next);
      assert [ESCAPE] + t == [ESCAPE, w[0]] + (w[1..] + u);
      PairCollected(w[0], w[1..] + u);
      if next == 0x01 || next == 0x02 {
        assert w == [next] && w[1..] + u == u;
        SwallowsLiteral(payload, j, rest);
      }
    }
  }

  lemma EscapeNothing()
    ensures Escape([]) == []
  {
  }

  lemma SwallowsLiteral(payload: seq<Byte>, j: nat, rest: seq<Byte>)
    requires |payload| >= HEADER && j + 1 < |Seal(payload)| && (Seal(payload)[j + 1] == 0x01 || Seal(payload)[j + 1] == 0x02)
    ensures var raw, u := Seal(payload), Escape(Seal(payload)[j + 2..]) + [FLAG] + rest;
            var c := Collect([ESCAPE, raw[j + 1]] + u);
            c.Closed? && (Finish(raw[..j] + c.raw).Ok? <==> |raw| > HEADER + 1 && raw[j] == 0x7c)
  {
    hide Finish, Escape, Seal, XorAll;
    var raw := Seal(payload);
    var low := raw[j + 1];
    var whole: Byte := if low == 0x01 then ESCAPE else FLAG;
    var u := Escape(raw[j + 2..]) + [FLAG] + rest;
    RestCollected(raw, j + 2, rest);
    PairCollected(low, u);
    SplitAt(raw, j);
    assert raw == raw[..j] + [raw[j], low] + raw[j + 2..];
    MiddleAccepted(payload, raw[..j], [raw[j], low], [whole], raw[j + 2..]);
    PairChecks(raw[j], low);
    assert raw[..j] + ([whole] + raw[j + 2..]) == raw[..j] + [whole] + raw[j + 2..];
  }

  /** Without its opening flag a frame is garbage up to its closing one. */
  lemma OpeningChanged(raw: seq<Byte>, b: Byte, garbage: seq<Byte>, more: seq<Message>)
    requires FLAG !in garbage && b != FLAG
    ensures Read(garbage + Changed(raw, Opening, b) + BackToBack(more)).outcome.Err?
  {
    hide Read, Escape, Message.Bytes;
    var tail := garbage + [b] + Escape(raw);
    EscapeHidesFlags(raw);
    assert Changed(raw, Opening, b) == [b] + Escape(raw) + [FLAG];
    assert garbage + Changed(raw, Opening, b) + BackToBack(more) == tail + [FLAG] + BackToBack(more);
    ReadFromInside(tail, BackToBack(more));
    FlagFirst(more);
  }

  lemma FlagFirst(more: seq<Message>)
    ensures if more == [] then BackToBack(more) == [] else BackToBack(more) != [] && BackToBack(more)[0] == FLAG
  {
  }

  /** Without its closing flag a frame goes on to the next flag, if there is one. */
  lemma ClosingChanged(payload: seq<Byte>, b: Byte, garbage: seq<Byte>, more: seq<Message>)
    requires |payload| >= HEADER && FLAG !in garbage && b != FLAG
    ensures Read(garbage + Changed(Seal(payload), Closing, b) + BackToBack(more)).outcome.Ok? <==> b == 0 && more != []
  {
    hide Read, Escape, Finish, Seal, Message.Bytes, BackToBack;
    var raw, rest := Seal(payload), BackToBack(more);
    assert Changed(raw, Closing, b) == [FLAG] + Escape(raw) + [b];
    assert garbage + Changed(raw, Closing, b) + rest == garbage + [FLAG] + (Escape(raw) + ([b] + rest));
    ReadGoesOn(garbage, raw, [b] + rest);
    FlagFirst(more);
    LastCollected(b, rest);
    ZeroAppended(payload, b);
  }

  lemma LastCollected(b: Byte, rest: seq<Byte>)
    requires b != FLAG && (rest != [] ==> rest[0] == FLAG)
    ensures var c := Collect([b] + rest);
            (c.Closed? <==> b != ESCAPE && rest != []) && (c.Closed? ==> c.raw == [b])
  {
    assert ([b] + rest)[1..] == rest;
  }

  lemma ZeroAppended(payload: seq<Byte>, b: Byte)
    requires |payload| >= HEADER
    ensures Finish(Seal(payload) + [b]).Ok? <==> b == 0
  {
    FinishSealed(payload);
    ChecksumAsParity(Seal(payload));
    assert (Seal(payload) + [b])[..|Seal(payload)|] == Seal(payload);
  }

  /**
    The exact set of accepted changes: a frame with one byte changed on the wire, any byte to any
    other, behind any flag-free garbage and before any run of frames, is still read as a frame
    exactly in the cases of Slips.
  */
  lemma ChangedByteAccepted(payload: seq<Byte>, spot: Spot, b: Byte, garbage: seq<Byte>, more: seq<Message>)
    requires |payload| >= HEADER && FLAG !in garbage
    requires spot.Valid(Seal(payload)) && b != Framing(Seal(payload))[SpotOf(Seal(payload), spot)]
    ensures Read(garbage + Changed(Seal(payload), spot, b) + BackToBack(more)).outcome.Ok? <==>
            Slips(Seal(payload), spot, b, more != [])
  {
    hide Read, Seal, XorAll, Changed, Escape;
    var raw, rest := Seal(payload), BackToBack(more);
    SpotInside(raw, spot);
    match spot {
      case Opening => OpeningChanged(raw, b, garbage, more);
      case Closing => ClosingChanged(payload, b, garbage, more);
      case Second(j) => SecondChanged(payload, j, b, garbage, rest);
      case Unit(j) =>
        if b == FLAG {
          CutByFlag(payload, j, garbage, rest);
        } else if b == ESCAPE {
          EscapeInstead(payload, j, garbage, rest);
        } else if b == raw[j] {
          assert false;
        } else {
          LiteralInstead(payload, j, b, garbage, rest);
        }
    }
  }
}
