/** What the frame reader accepts, and how it undoes the writer. */
module WireTheorems {
  import opened Bytes
  import opened Wire
  import Bcd

  // ---- escaping ----

  lemma {:induction false} EscapeConcat(a: seq<Byte>, b: seq<Byte>)
    ensures Escape(a + b) == Escape(a) + Escape(b)
  {
    if a == [] {
      assert a + b == b;
    } else {
      assert (a + b)[1..] == a[1..] + b;
      EscapeConcat(a[1..], b);
    }
  }

  lemma EscapeSnoc(raw: seq<Byte>, b: Byte)
    ensures Escape(raw + [b]) == Escape(raw) + EscapeByte(b)
  {
    EscapeConcat(raw, [b]);
    assert Escape([b]) == EscapeByte(b);
  }

  lemma {:induction false} EscapeHidesFlags(raw: seq<Byte>)
    ensures FLAG !in Escape(raw)
  {
    if raw != [] {
      EscapeHidesFlags(raw[1..]);
    }
  }

  lemma EscapeCons(b: Byte, raw: seq<Byte>)
    ensures Escape([b] + raw) == EscapeByte(b) + Escape(raw)
  {
    assert ([b] + raw)[1..] == raw;
  }

  lemma CollectCons(b: Byte, s: seq<Byte>)
    ensures Collect(EscapeByte(b) + s) == Collect(s).Push(b, |EscapeByte(b)|)
  {
    assert (EscapeByte(b) + s)[|EscapeByte(b)|..] == s;
  }

  lemma CollectFlag(rest: seq<Byte>)
    ensures Collect([FLAG] + rest) == Closed([], 1)
  {
  }

  /** Unescaping undoes escaping, whatever follows the closing flag. */
  lemma {:induction false} CollectEscaped(raw: seq<Byte>, rest: seq<Byte>)
    ensures Collect(Escape(raw) + [FLAG] + rest) == Closed(raw, |Escape(raw)| + 1)
  {
    if raw == [] {
      CollectFlag(rest);
      assert Escape(raw) + [FLAG] + rest == [FLAG] + rest;
    } else {
      hide Collect, Escape, EscapeByte;
      CollectEscaped(raw[1..], rest);
      assert [raw[0]] + raw[1..] == raw;
      EscapeCons(raw[0], raw[1..]);
      var tail := Escape(raw[1..]) + [FLAG] + rest;
      CollectCons(raw[0], tail);
      assert Escape(raw) + [FLAG] + rest == EscapeByte(raw[0]) + tail;
    }
  }

  /** One step of collecting takes the escape of one byte. */
  lemma CollectStep(s: seq<Byte>) returns (b: Byte, n: nat)
    requires Collect(s).Closed? && s[0] != FLAG
    ensures n == |EscapeByte(b)| && n <= |s| && s[..n] == EscapeByte(b)
    ensures Collect(s) == Collect(s[n..]).Push(b, n)
  {
    b, n := s[0], 1;
    if s[0] == ESCAPE {
      b, n := if s[1] == 0x01 then ESCAPE else FLAG, 2;
    }
  }

  lemma Adjoin(s: seq<Byte>, a: seq<Byte>, b: seq<Byte>)
    requires |a| + |b| + 1 <= |s| && s[..|a|] == a && s[|a|..][..|b| + 1] == b + [FLAG]
    ensures s[..|a| + |b| + 1] == a + b + [FLAG]
  {
    assert s[..|a| + |b| + 1] == s[..|a|] + s[|a|..][..|b| + 1];
  }

  /** And escaping undoes unescaping: every interior that closes is an escaped one. */
  lemma {:induction false} CollectedIsEscaped(s: seq<Byte>)
    requires Collect(s).Closed?
    ensures var c := Collect(s);
            c.used == |Escape(c.raw)| + 1 && s[..c.used] == Escape(c.raw) + [FLAG]
    decreases |s|
  {
    if s[0] == FLAG {
      assert s[..1] == [] + [FLAG];
    } else {
      var b, n := CollectStep(s);
      hide Collect, Escape, EscapeByte;
      CollectedIsEscaped(s[n..]);
      var c := Collect(s[n..]);
      EscapeCons(b, c.raw);
      Adjoin(s, EscapeByte(b), Escape(c.raw));
    }
  }

  lemma EscapeInjective(a: seq<Byte>, b: seq<Byte>)
    requires Escape(a) == Escape(b)
    ensures a == b
  {
    CollectEscaped(a, []);
    CollectEscaped(b, []);
  }

  // ---- the accepted language ----

  lemma {:induction false} SkipGarbage(garbage: seq<Byte>, rest: seq<Byte>)
    requires FLAG !in garbage
    ensures Skip(garbage + [FLAG] + rest) == |garbage|
  {
    if garbage != [] {
      assert (garbage + [FLAG] + rest)[1..] == garbage[1..] + [FLAG] + rest;
      SkipGarbage(garbage[1..], rest);
    }
  }

  lemma {:induction false} SkipsOnlyGarbage(s: seq<Byte>)
    ensures FLAG !in s[..Skip(s)] && (Skip(s) < |s| ==> s[Skip(s)] == FLAG)
  {
    if s != [] && s[0] != FLAG {
      SkipsOnlyGarbage(s[1..]);
      assert s[..Skip(s)] == [s[0]] + s[1..][..Skip(s) - 1];
    }
  }

  /** s is flag-free garbage, then one enclosed payload, then rest. */
  ghost predicate Framed(s: seq<Byte>, garbage: seq<Byte>, payload: seq<Byte>, rest: seq<Byte>) {
    && FLAG !in garbage
    && |payload| >= HEADER
    && s == garbage + Enclose(payload) + rest
  }

  lemma FinishSealed(payload: seq<Byte>)
    requires |payload| >= HEADER
    ensures Finish(Seal(payload)) == Ok(Parse(payload))
  {
    assert Seal(payload)[..|payload|] == payload;
  }

  /** A framed payload is read as that payload, up to its closing flag and no further. */
  lemma ReadFramed(s: seq<Byte>, garbage: seq<Byte>, payload: seq<Byte>, rest: seq<Byte>)
    requires Framed(s, garbage, payload, rest)
    ensures Read(s) == Reading(Ok(Parse(payload)), |garbage| + |Enclose(payload)|)
    ensures s[|garbage| + |Enclose(payload)|..] == rest
  {
    var inner := Escape(Seal(payload)) + [FLAG] + rest;
    assert s == garbage + [FLAG] + inner;
    SkipGarbage(garbage, inner);
    assert s[|garbage| + 1..] == inner;
    CollectEscaped(Seal(payload), rest);
    FinishSealed(payload);
  }

  lemma Reassemble(s: seq<Byte>, k: nat, escaped: seq<Byte>)
    requires k + 1 + |escaped| + 1 <= |s| && s[k] == FLAG
    requires s[k + 1..][..|escaped| + 1] == escaped + [FLAG]
    ensures s == s[..k] + ([FLAG] + escaped + [FLAG]) + s[k + 1 + |escaped| + 1..]
  {
    assert s == s[..k] + [s[k]] + s[k + 1..];
    assert s[k + 1..] == s[k + 1..][..|escaped| + 1] + s[k + 1..][|escaped| + 1..];
  }

  lemma FinishWasSealed(raw: seq<Byte>)
    requires Finish(raw).Ok?
    ensures var p := raw[..|raw| - 1]; |p| >= HEADER && raw == Seal(p) && Finish(raw) == Ok(Parse(p))
  {
  }

  /** Whatever is read was framed. */
  lemma ReadWasFramed(s: seq<Byte>) returns (garbage: seq<Byte>, payload: seq<Byte>, rest: seq<Byte>)
    requires Read(s).outcome.Ok?
    ensures Framed(s, garbage, payload, rest)
    ensures Read(s) == Reading(Ok(Parse(payload)), |garbage| + |Enclose(payload)|)
  {
    hide Skip, Collect, Escape, XorAll, Parse;
    var k := Skip(s);
    SkipsOnlyGarbage(s);
    var c := Collect(s[k + 1..]);
    CollectedIsEscaped(s[k + 1..]);
    FinishWasSealed(c.raw);
    Reassemble(s, k, Escape(c.raw));
    garbage, payload, rest := s[..k], c.raw[..|c.raw| - 1], s[k + 1 + c.used..];
  }

  /** The exact language of the reader: it succeeds on the framed streams and on no other. */
  lemma AcceptedLanguage(s: seq<Byte>)
    ensures Read(s).outcome.Ok? <==> exists g, p, r :: Framed(s, g, p, r)
  {
    if Read(s).outcome.Ok? {
      var g, p, r := ReadWasFramed(s);
    }
    if g, p, r :| Framed(s, g, p, r) {
      ReadFramed(s, g, p, r);
    }
  }

  /** A stream is framed in one way only. */
  lemma FramingIsUnique(s: seq<Byte>, g: seq<Byte>, p: seq<Byte>, r: seq<Byte>,
                        g': seq<Byte>, p': seq<Byte>, r': seq<Byte>)
    requires Framed(s, g, p, r) && Framed(s, g', p', r')
    ensures g == g' && p == p' && r == r'
  {
    hide Escape, Collect, Skip, XorAll;
    var inner, inner' := Escape(Seal(p)) + [FLAG] + r, Escape(Seal(p')) + [FLAG] + r';
    assert s == g + [FLAG] + inner == g' + [FLAG] + inner';
    SkipGarbage(g, inner);
    SkipGarbage(g', inner');
    assert g == s[..|g|] == g';
    assert inner == s[|g| + 1..] == inner';
    CollectEscaped(Seal(p), r);
    CollectEscaped(Seal(p'), r');
    assert p == Seal(p)[..|p|] && p' == Seal(p')[..|p'|];
    assert r == inner[|Escape(Seal(p))| + 1..] && r' == inner'[|Escape(Seal(p'))| + 1..];
  }

  /** The errors that say the input ended too early. */
  predicate Starved(error: ReadError) {
    error.EndOfInput? || error.MidFrame? || error.EscapeCut?
  }

  lemma {:induction false} SkipIgnoresRest(s: seq<Byte>, n: nat, other: seq<Byte>)
    requires Skip(s) < n <= |s|
    ensures Skip(s[..n] + other) == Skip(s)
    decreases |s|
  {
    if s[0] != FLAG {
      assert (s[..n] + other)[1..] == s[1..][..n - 1] + other;
      SkipIgnoresRest(s[1..], n - 1, other);
    }
  }

  lemma {:induction false} CollectIgnoresRest(s: seq<Byte>, other: seq<Byte>)
    requires var c := Collect(s); c.Broken? ==> !Starved(c.error)
    ensures Collect(s[..Collect(s).used] + other) == Collect(s)
    decreases |s|
  {
    if s[0] != FLAG && (s[0] != ESCAPE || s[1] == 0x01 || s[1] == 0x02) {
      var k := if s[0] == ESCAPE then 2 else 1;
      var c := Collect(s[k..]);
      assert (s[..Collect(s).used] + other)[k..] == s[k..][..c.used] + other;
      CollectIgnoresRest(s[k..], other);
    }
  }

  lemma {:induction false} StarvedCollect(s: seq<Byte>)
    requires Collect(s).Broken? && Starved(Collect(s).error)
    ensures var c := Collect(s);
            && c.used == |s| && (c.error.MidFrame? || c.error.EscapeCut?)
            && (c.error.MidFrame? ==> Collect(s + [FLAG]).Closed?)
            && (c.error.EscapeCut? ==> Collect(s + [0]) == Broken(BadEscape(0), |s| + 1))
    decreases |s|
  {
    if s != [] && |s| > 1 {
      var k := if s[0] == ESCAPE then 2 else 1;
      assert (s + [FLAG])[k..] == s[k..] + [FLAG] && (s + [0])[k..] == s[k..] + [0];
      StarvedCollect(s[k..]);
    }
  }

  /**
    Reading looks at the bytes it consumes and at nothing after them, whether it succeeds or
    fails, exactly unless it fails because the input ends.
  */
  lemma ReadIgnoresRest(s: seq<Byte>)
    ensures var r := Read(s);
            (forall other :: Read(s[..r.used] + other) == r) <==> (r.outcome.Err? ==> !Starved(r.outcome.error))
  {
    hide Collect, Finish;
    var r, k := Read(s), Skip(s);
    if r.outcome.Err? && Starved(r.outcome.error) {
      MoreFeeds(s);
    } else {
      forall other ensures Read(s[..r.used] + other) == r {
        var t := s[..r.used] + other;
        SkipIgnoresRest(s, r.used, other);
        var c := Collect(s[k + 1..]);
        FinishIsFed(c);
        assert t[k + 1..] == s[k + 1..][..c.used] + other;
        CollectIgnoresRest(s[k + 1..], other);
      }
    }
  }

  lemma FinishIsFed(c: Interior)
    ensures c.Closed? ==> Finish(c.raw).Ok? || !Starved(Finish(c.raw).error)
  {
  }

  /** A reader that ran out of input would have gone on. */
  lemma MoreFeeds(s: seq<Byte>)
    requires Read(s).outcome.Err? && Starved(Read(s).outcome.error)
    ensures exists other :: Read(s[..Read(s).used] + other) != Read(s)
  {
    hide Collect, Finish, Skip;
    var r, k := Read(s), Skip(s);
    SkipsOnlyGarbage(s);
    if k == |s| {
      SkipGarbage(s, []);
      assert s[..r.used] + [FLAG] == s + [FLAG] == s + [FLAG] + [];
      NothingInside(s + [FLAG]);
      assert Read(s[..r.used] + [FLAG]) != r;
    } else {
      var inner := s[k + 1..];
      FinishIsFed(Collect(inner));
      StarvedCollect(inner);
      assert s[..r.used] == s;
      var other: seq<Byte> := if Collect(inner).error.MidFrame? then [FLAG] else [0];
      assert s + other == s[..k] + [FLAG] + (inner + other);
      SkipGarbage(s[..k], inner + other);
      assert (s + other)[k + 1..] == inner + other;
      FinishIsFed(Collect(inner + other));
      assert Read(s[..r.used] + other) != r;
    }
  }

  lemma NothingInside(s: seq<Byte>)
    requires s != [] && Skip(s) == |s| - 1
    ensures Read(s).outcome == Err(MidFrame)
  {
  }

  // ---- round trips ----

  /** What a caller hands to the writer. */
  datatype Message = Message(msgId: U16, phone: Text, seqNum: U16, body: Text) {
    function Bytes(): seq<Byte> {
      Written(msgId, phone, seqNum, body)
    }

    /** The frame the other side gets to see. */
    function Received(): Frame {
      Frame(msgId, Bcd.Decode(Bcd.Encode(phone)), seqNum, body, false, 0, 0)
    }
  }

  lemma HeaderFields(p: seq<Byte>, id: seq<Byte>, attrs: seq<Byte>, phone: seq<Byte>, num: seq<Byte>, body: seq<Byte>)
    requires |p| >= HEADER && |id| == |attrs| == |num| == 2 && |phone| == 6
    ensures id + attrs + phone + num + body == p <==>
            id == p[0..2] && attrs == p[2..4] && phone == p[4..10] && num == p[10..12] && body == p[12..]
  {
    var q := id + attrs + phone + num + body;
    assert q[0..2] == id && q[2..4] == attrs && q[4..10] == phone && q[10..12] == num && q[12..] == body;
    assert p == p[0..2] + p[2..4] + p[4..10] + p[10..12] + p[12..];
  }

  lemma ParsePayload(m: Message)
    ensures Parse(Payload(m.msgId, m.phone, m.seqNum, m.body)) == m.Received()
  {
    hide Bcd.Decode, Bcd.Encode;
    var p := Payload(m.msgId, m.phone, m.seqNum, m.body);
    var id, attrs, phone, num := PutU16(m.msgId), PutU16(|m.body| % LENGTH_LIMIT), Bcd.Encode(m.phone), PutU16(m.seqNum);
    HeaderFields(p, id, attrs, phone, num, m.body);
    U16Inverse(p, 0);
    U16Inverse(p, 2);
    U16Inverse(p, 10);
    PutU16Injective(GetU16(p, 0), m.msgId);
    PutU16Injective(GetU16(p, 2), |m.body| % LENGTH_LIMIT);
    PutU16Injective(GetU16(p, 10), m.seqNum);
  }

  lemma ReadWritten(m: Message, garbage: seq<Byte>, rest: seq<Byte>)
    requires FLAG !in garbage
    ensures Read(garbage + m.Bytes() + rest) == Reading(Ok(m.Received()), |garbage| + |m.Bytes()|)
    ensures (garbage + m.Bytes() + rest)[|garbage| + |m.Bytes()|..] == rest
  {
    ReadFramed(garbage + m.Bytes() + rest, garbage, Payload(m.msgId, m.phone, m.seqNum, m.body), rest);
    ParsePayload(m);
  }

  /** Messages on the wire, each behind some garbage of its own. */
  function Transmission(messages: seq<Message>, garbage: seq<seq<Byte>>): seq<Byte>
    requires |garbage| == |messages|
  {
    if messages == [] then []
    else garbage[0] + messages[0].Bytes() + Transmission(messages[1..], garbage[1..])
  }

  function AllReceived(messages: seq<Message>): seq<Frame> {
    seq(|messages|, i requires 0 <= i < |messages| => messages[i].Received())
  }

  lemma ReadNothing(s: seq<Byte>)
    requires FLAG !in s
    ensures Read(s).outcome == Err(EndOfInput)
  {
    SkipsOnlyGarbage(s);
  }

  lemma ReadAllStep(s: seq<Byte>, frame: Frame, used: nat)
    requires Read(s) == Reading(Ok(frame), used)
    ensures ReadAll(s).frames == [frame] + ReadAll(s[used..]).frames && ReadAll(s).error == ReadAll(s[used..]).error
  {
  }

  /** Any messages, behind any flag-free garbage, are read back in order and are followed by a clean end. */
  lemma {:induction false} StreamRoundTrip(messages: seq<Message>, garbage: seq<seq<Byte>>, trailer: seq<Byte>)
    requires |garbage| == |messages|
    requires FLAG !in trailer && forall g :: g in garbage ==> FLAG !in g
    ensures ReadAll(Transmission(messages, garbage) + trailer) == Stream(AllReceived(messages), EndOfInput)
  {
    hide Escape, XorAll, Read, Bcd.Decode, Bcd.Encode;
    var s := Transmission(messages, garbage) + trailer;
    if messages == [] {
      assert s == trailer;
      ReadNothing(trailer);
    } else {
      var rest := Transmission(messages[1..], garbage[1..]) + trailer;
      assert s == garbage[0] + messages[0].Bytes() + rest;
      ReadWritten(messages[0], garbage[0], rest);
      ReadAllStep(s, messages[0].Received(), |garbage[0]| + |messages[0].Bytes()|);
      StreamRoundTrip(messages[1..], garbage[1..], trailer);
      assert AllReceived(messages) == [messages[0].Received()] + AllReceived(messages[1..]);
    }
  }

  /** The phone arrives unchanged when the field can carry it. */
  lemma PhoneArrives(m: Message)
    requires |m.phone| <= Bcd.DIGITS && Bcd.Packable(m.phone)
    ensures m.Received().phone == m.phone
  {
    assert Bcd.Carried(m.phone) == m.phone;
    Bcd.DecodeOfEncode(m.phone);
  }

  /** A payload whose header is the one the writer would produce. */
  ghost predicate Canonical(p: seq<Byte>)
    requires |p| >= HEADER
  {
    GetU16(p, 2) == |Parse(p).body| % 1024 && Bcd.PaddedAtEnd(p[4..10])
  }

  lemma EncloseInjective(p: seq<Byte>, q: seq<Byte>)
    requires Enclose(p) == Enclose(q)
    ensures p == q
  {
    hide Escape;
    assert Escape(Seal(p)) == Enclose(p)[1..|Enclose(p)| - 1] == Escape(Seal(q));
    EscapeInjective(Seal(p), Seal(q));
    assert p == Seal(p)[..|p|] && q == Seal(q)[..|q|];
  }

  lemma PayloadOfParse(p: seq<Byte>)
    requires |p| >= HEADER
    ensures var f := Parse(p); Payload(f.msgId, f.phone, f.seqNum, f.body) == p <==> Canonical(p)
  {
    hide Bcd.Decode, Bcd.Encode, Bcd.PaddedAtEnd;
    var f := Parse(p);
    HeaderFields(p, PutU16(f.msgId), PutU16(|f.body| % LENGTH_LIMIT), Bcd.Encode(f.phone), PutU16(f.seqNum), f.body);
    U16Inverse(p, 0);
    U16Inverse(p, 2);
    U16Inverse(p, 10);
    PutU16Injective(|f.body| % LENGTH_LIMIT, GetU16(p, 2));
    Bcd.EncodeOfDecode(p[4..10]);
    assert |f.body| % LENGTH_LIMIT == GetU16(p, 2) ==> !f.subpackage;
  }

  /**
    Writing a frame that was read reproduces its bytes exactly when its attributes hold the
    body length alone and the fillers of its phone come last.
  */
  lemma ReverseRoundTrip(payload: seq<Byte>)
    requires |payload| >= HEADER
    ensures var f := Parse(payload);
            Written(f.msgId, f.phone, f.seqNum, f.body) == Enclose(payload) <==> Canonical(payload)
  {
    var f := Parse(payload);
    var q := Payload(f.msgId, f.phone, f.seqNum, f.body);
    PayloadOfParse(payload);
    if Enclose(q) == Enclose(payload) {
      EncloseInjective(q, payload);
    }
  }

  // ---- error detection ----

  lemma ChecksumAsParity(raw: seq<Byte>)
    requires |raw| >= HEADER + 1
    ensures Finish(raw).Ok? <==> XorAll(raw) == 0
  {
    XorVanishes(XorAll(raw[..|raw| - 1]), raw[|raw| - 1]);
  }

  /** The exclusive-or of two sequences, byte by byte. */
  function Difference(a: seq<Byte>, b: seq<Byte>): seq<Byte>
    requires |a| == |b|
  {
    seq(|a|, i requires 0 <= i < |a| => Xor(a[i], b[i]))
  }

  lemma {:induction false} XorAllDifference(a: seq<Byte>, b: seq<Byte>)
    requires |a| == |b|
    ensures XorAll(Difference(a, b)) == Xor(XorAll(a), XorAll(b))
  {
    if a != [] {
      var n := |a| - 1;
      var x, y, u, v := XorAll(a[..n]), a[n], XorAll(b[..n]), b[n];
      XorAllDifference(a[..n], b[..n]);
      assert Difference(a, b)[..n] == Difference(a[..n], b[..n]);
      XorAssociative(Xor(x, u), y, v);
      XorAssociative(x, u, y);
      XorCommutative(u, y);
      XorAssociative(x, y, u);
      XorAssociative(Xor(x, y), u, v);
    }
  }

  /** A corruption that keeps the length slips through exactly when its byte differences cancel out. */
  lemma CorruptionAccepted(payload: seq<Byte>, raw: seq<Byte>)
    requires |payload| >= HEADER && |raw| == |payload| + 1
    ensures Finish(raw).Ok? <==> XorAll(Difference(Seal(payload), raw)) == 0
  {
    var sealed := Seal(payload);
    FinishSealed(payload);
    ChecksumAsParity(sealed);
    ChecksumAsParity(raw);
    XorAllDifference(sealed, raw);
    XorUnit(XorAll(raw));
  }

  lemma {:induction false} XorAllUpdate(s: seq<Byte>, i: nat, b: Byte)
    requires i < |s| && b != s[i]
    ensures XorAll(s[i := b]) != XorAll(s)
  {
    var n := |s| - 1;
    var x, x' := XorAll(s[..n]), XorAll(s[i := b][..n]);
    if i == n {
      assert s[i := b][..n] == s[..n];
      XorCancel(x, b, s[n]);
    } else {
      assert s[i := b][..n] == s[..n][i := b];
      XorAllUpdate(s[..n], i, b);
      XorCommutative(x, s[n]);
      XorCommutative(x', s[n]);
      XorCancel(s[n], x, x');
    }
  }

  lemma XorCancel(a: Byte, b: Byte, c: Byte)
    ensures Xor(a, b) == Xor(a, c) <==> b == c
  {
    if Xor(a, b) == Xor(a, c) {
      XorAssociative(a, a, b);
      XorAssociative(a, a, c);
      XorVanishes(a, a);
      XorUnit(b);
      XorUnit(c);
    }
  }

  /** Changing one byte behind the escapes is always noticed, and never mistaken for something else. */
  lemma SingleByteChangeRejected(payload: seq<Byte>, i: nat, b: Byte)
    requires |payload| >= HEADER && i <= |payload| && b != Seal(payload)[i]
    ensures var f := Finish(Seal(payload)[i := b]); f.Err? && f.error.BadChecksum?
  {
    FinishSealed(payload);
    ChecksumAsParity(Seal(payload));
    XorAllUpdate(Seal(payload), i, b);
    ChecksumAsParity(Seal(payload)[i := b]);
  }

  /** One byte, or one escape pair, replaced in the bytes of an enclosed payload. */
  function Tampered(payload: seq<Byte>, i: nat, patch: seq<Byte>): seq<Byte>
    requires i <= |payload|
  {
    [FLAG] + Escape(Seal(payload)[..i]) + patch + Escape(Seal(payload)[i + 1..]) + [FLAG]
  }

  lemma TamperedIsEscaped(raw: seq<Byte>, i: nat, b: Byte)
    requires i < |raw|
    ensures [FLAG] + Escape(raw[..i]) + EscapeByte(b) + Escape(raw[i + 1..]) + [FLAG]
         == [FLAG] + Escape(raw[i := b]) + [FLAG]
    ensures |Escape(raw[i := b])| == |Escape(raw[..i])| + |EscapeByte(b)| + |Escape(raw[i + 1..])|
  {
    hide Escape, EscapeByte;
    EscapeAround(raw, i, b);
  }

  lemma ReadInterior(garbage: seq<Byte>, raw: seq<Byte>, rest: seq<Byte>)
    requires FLAG !in garbage
    ensures Read(garbage + ([FLAG] + Escape(raw) + [FLAG]) + rest).outcome == Finish(raw)
  {
    var inner := Escape(raw) + [FLAG] + rest;
    var s := garbage + ([FLAG] + Escape(raw) + [FLAG]) + rest;
    assert s == garbage + [FLAG] + inner;
    SkipGarbage(garbage, inner);
    assert s[|garbage| + 1..] == inner;
    CollectEscaped(raw, rest);
  }

  /**
    On the wire: replacing a literal byte by another literal byte, or one escape pair by
    the other, is always reported as a checksum mismatch.
  */
  lemma WireChangeRejected(payload: seq<Byte>, i: nat, b: Byte, garbage: seq<Byte>, rest: seq<Byte>)
    requires |payload| >= HEADER && i <= |payload| && FLAG !in garbage
    requires b != Seal(payload)[i] && |EscapeByte(b)| == |EscapeByte(Seal(payload)[i])|
    ensures Tampered(payload, i, EscapeByte(Seal(payload)[i])) == Enclose(payload)
    ensures |Tampered(payload, i, EscapeByte(b))| == |Enclose(payload)|
    ensures var r := Read(garbage + Tampered(payload, i, EscapeByte(b)) + rest);
            r.outcome.Err? && r.outcome.error.BadChecksum?
  {
    var raw := Seal(payload);
    TamperedIsEscaped(raw, i, raw[i]);
    assert raw[i := raw[i]] == raw;
    TamperedIsEscaped(raw, i, b);
    ReadInterior(garbage, raw[i := b], rest);
    SingleByteChangeRejected(payload, i, b);
  }

  lemma EscapeAround(raw: seq<Byte>, i: nat, b: Byte)
    requires i < |raw|
    ensures Escape(raw[i := b]) == Escape(raw[..i]) + EscapeByte(b) + Escape(raw[i + 1..])
  {
    assert raw[i := b] == raw[..i] + ([b] + raw[i + 1..]);
    EscapeConcat(raw[..i], [b] + raw[i + 1..]);
    assert ([b] + raw[i + 1..])[1..] == raw[i + 1..];
  }

  // ---- joining late ----

  /** A reader that starts inside a frame takes the closing flag for an opening one. */
  lemma ReadFromInside(tail: seq<Byte>, rest: seq<Byte>)
    requires FLAG !in tail
    ensures var r := Read(tail + [FLAG] + rest);
            match Collect(rest)
            case Broken(error, used) => r == Reading(Err(error), |tail| + 1 + used)
            case Closed(raw, used) => r == Reading(Finish(raw), |tail| + 1 + used)
  {
    SkipGarbage(tail, rest);
    assert (tail + [FLAG] + rest)[|tail| + 1..] == rest;
  }

  function BackToBack(messages: seq<Message>): seq<Byte> {
    if messages == [] then [] else messages[0].Bytes() + BackToBack(messages[1..])
  }

  lemma {:induction false} BackToBackSnoc(messages: seq<Message>, m: Message)
    ensures BackToBack(messages + [m]) == BackToBack(messages) + m.Bytes()
  {
    hide Message.Bytes;
    if messages == [] {
      assert messages + [m] == [m];
    } else {
      assert (messages + [m])[1..] == messages[1..] + [m];
      BackToBackSnoc(messages[1..], m);
    }
  }

  /** Frames written back to back are read back. */
  lemma BackToBackIsRead(messages: seq<Message>)
    ensures ReadAll(BackToBack(messages)) == Stream(AllReceived(messages), EndOfInput)
  {
    hide ReadAll, Message.Bytes, Message.Received;
    var silence: seq<seq<Byte>> := seq(|messages|, _ => []);
    StreamRoundTrip(messages, silence, []);
    SilentTransmission(messages, silence);
    assert Transmission(messages, silence) + [] == Transmission(messages, silence);
  }

  lemma {:induction false} SilentTransmission(messages: seq<Message>, silence: seq<seq<Byte>>)
    requires |silence| == |messages| && forall i :: 0 <= i < |silence| ==> silence[i] == []
    ensures Transmission(messages, silence) == BackToBack(messages)
  {
    hide Message.Bytes;
    if messages != [] {
      SilentTransmission(messages[1..], silence[1..]);
      assert [] + messages[0].Bytes() == messages[0].Bytes();
    }
  }

  /**
    A reader that joins anywhere after the opening flag of a frame, in a run of back-to-back
    frames, gets an error and never a frame: an empty interior if another frame follows, else
    the end of input.
  */
  lemma LateJoin(first: Message, more: seq<Message>, at: nat)
    requires 0 < at < |first.Bytes()|
    ensures var s := (first.Bytes() + BackToBack(more))[at..];
            Read(s).outcome == Err(if more == [] then MidFrame else TooShort(0)) && ReadAll(s).frames == []
  {
    hide XorAll, Bcd.Encode, Skip;
    var raw := Seal(Payload(first.msgId, first.phone, first.seqNum, first.body));
    var tail, rest := Escape(raw)[at - 1..], BackToBack(more);
    EscapeHidesFlags(raw);
    assert (first.Bytes() + rest)[at..] == tail + [FLAG] + rest;
    ReadFromInside(tail, rest);
    assert more != [] ==> rest[0] == FLAG;
  }
}
