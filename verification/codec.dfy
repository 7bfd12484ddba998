/** The frame reader and writer as they run: byte by byte, over streams. */
module Codec {
  import opened Bytes
  import opened Wire
  import Bcd
  import WireTheorems

  // ---- streams ----

  /** An input stream: the bytes that will ever arrive, and how far it has been read. */
  class ByteSource {
    const data: seq<Byte>
    var pos: nat

    ghost predicate Valid()
      reads this
    {
      pos <= |data|
    }

    ghost function Rest(): seq<Byte>
      requires Valid()
      reads this
    {
      data[pos..]
    }

    constructor (data: seq<Byte>)
      ensures Valid() && Rest() == data
    {
      this.data, pos := data, 0;
    }

    method ReadByte() returns (ok: bool, b: Byte)
      requires Valid()
      modifies this
      ensures Valid()
      ensures ok == (old(Rest()) != [])
      ensures ok ==> b == old(Rest())[0] && Rest() == old(Rest())[1..]
      ensures !ok ==> pos == old(pos)
    {
      ok, b := pos < |data|, 0;
      if ok {
        b := data[pos];
        pos := pos + 1;
      }
    }
  }

  /** The writing half of a connection. A write delivers everything or, on an error, nothing. */
  class Conn {
    const id: nat
    var open: bool
    var written: seq<Byte>

    constructor (id: nat)
      ensures this.id == id && open && written == []
    {
      this.id, open, written := id, true, [];
    }

    method Write(data: seq<Byte>, delivered: bool) returns (ok: bool)
      modifies this`written
      ensures ok == (open && delivered)
      ensures written == old(written) + if ok then data else []
    {
      ok := open && delivered;
      if ok {
        written := written + data;
      }
    }
  }

  /** A cursor over a decoded body. Reading a number past the end yields zero and uses up what is left. */
  class Cursor {
    const data: seq<Byte>
    var pos: nat

    ghost predicate Valid()
      reads this
    {
      pos <= |data|
    }

    constructor (data: seq<Byte>)
      ensures Valid() && pos == 0 && this.data == data
    {
      this.data, pos := data, 0;
    }

    function Len(): nat
      requires Valid()
      reads this
    {
      |data| - pos
    }

    method Take(n: nat) returns (s: seq<Byte>)
      requires Valid()
      modifies this
      ensures Valid() && pos == Min(old(pos) + n, |data|)
      ensures s == data[old(pos)..pos] + Repeat(0, n - (pos - old(pos)))
      ensures old(pos) + n <= |data| ==> s == data[old(pos)..old(pos) + n]
    {
      var m := Min(n, Len());
      s := data[pos..pos + m] + Repeat(0, n - m);
      pos := pos + m;
    }

    method TakeU8() returns (v: Byte)
      requires Valid()
      modifies this
      ensures Valid() && pos == Min(old(pos) + 1, |data|)
      ensures v == if old(pos) + 1 <= |data| then data[old(pos)] else 0
    {
      v := if Len() >= 1 then data[pos] else 0;
      pos := Min(pos + 1, |data|);
    }

    method TakeU16() returns (v: U16)
      requires Valid()
      modifies this
      ensures Valid() && pos == Min(old(pos) + 2, |data|)
      ensures v == if old(pos) + 2 <= |data| then GetU16(data, old(pos)) else 0
    {
      v := if Len() >= 2 then GetU16(data, pos) else 0;
      pos := Min(pos + 2, |data|);
    }

    method TakeU32() returns (v: U32)
      requires Valid()
      modifies this
      ensures Valid() && pos == Min(old(pos) + 4, |data|)
      ensures v == if old(pos) + 4 <= |data| then GetU32(data, old(pos)) else 0
    {
      v := if Len() >= 4 then GetU32(data, pos) else 0;
      pos := Min(pos + 4, |data|);
    }
  }

  // ---- checksum ----

  method XorChecksum(data: seq<Byte>) returns (cs: Byte)
    ensures cs == XorAll(data)
  {
    cs := 0;
    for i := 0 to |data|
      invariant cs == XorAll(data[..i])
    {
      assert data[..i + 1][..i] == data[..i];
      cs := Xor(cs, data[i]);
    }
    assert data[..|data|] == data;
  }

  // ---- reader ----

  method ReadFrame(src: ByteSource) returns (r: Result<Frame, ReadError>)
    requires src.Valid()
    modifies src
    ensures src.Valid()
    ensures r == Read(old(src.Rest())).outcome
    ensures src.Rest() == old(src.Rest())[Read(old(src.Rest())).used..]
  {
    hide Skip, Collect, Finish, Parse;
    ghost var s := src.Rest();
    var ok, b := SkipToFlag(src);
    if !ok {
      return Err(EndOfInput);
    }
    ghost var inner := src.Rest();
    var collected := CollectRaw(src);
    ghost var c := Collect(inner);
    assert s[Skip(s) + 1..][c.used..] == s[Skip(s) + 1 + c.used..];
    match collected {
      case Err(error) => r := Err(error);
      case Ok(raw) => r := DecodeRaw(raw);
    }
  }

  method SkipToFlag(src: ByteSource) returns (ok: bool, b: Byte)
    requires src.Valid()
    modifies src
    ensures src.Valid()
    ensures ok == (Skip(old(src.Rest())) < |old(src.Rest())|)
    ensures src.Rest() == old(src.Rest())[if ok then Skip(old(src.Rest())) + 1 else Skip(old(src.Rest()))..]
  {
    ghost var s := src.Rest();
    ok, b := src.ReadByte();
    ghost var n := 0;
    while ok && b != FLAG
      invariant src.Valid() && n <= |s|
      invariant ok ==> n < |s| && b == s[n] && src.Rest() == s[n + 1..]
      invariant !ok ==> n == |s| && src.Rest() == []
      invariant Skip(s) == n + Skip(s[n..])
      decreases |src.data| - src.pos, ok
    {
      ok, b := src.ReadByte();
      n := n + 1;
    }
  }

  method CollectRaw(src: ByteSource) returns (r: Result<seq<Byte>, ReadError>)
    requires src.Valid()
    modifies src
    ensures src.Valid()
    ensures var c := Collect(old(src.Rest()));
            && src.Rest() == old(src.Rest())[c.used..]
            && r == match c case Closed(raw, _) => Ok(raw) case Broken(error, _) => Err(error)
  {
    ghost var s := src.Rest();
    ghost var n := 0;
    var raw: seq<Byte> := [];
    while true
      invariant src.Valid() && n <= |s| && src.Rest() == s[n..]
      invariant Collect(s) == Extend(raw, n, Collect(s[n..]))
      decreases |s| - n
    {
      hide Collect;
      CollectHead(s, raw, n);
      var ok, b := src.ReadByte();
      if !ok {
        return Err(MidFrame);
      }
      if b == FLAG {
        return Ok(raw);
      }
      if b == ESCAPE {
        ok, b := src.ReadByte();
        if !ok {
          return Err(EscapeCut);
        }
        if b != 0x01 && b != 0x02 {
          return Err(BadEscape(b));
        }
        raw := raw + [if b == 0x01 then ESCAPE else FLAG];
        n := n + 2;
      } else {
        raw := raw + [b];
        n := n + 1;
      }
    }
  }

  /** What collecting amounts to once raw has been taken from the first n bytes. */
  ghost function Extend(raw: seq<Byte>, n: nat, c: Interior): Interior {
    match c
    case Closed(more, used) => Closed(raw + more, n + used)
    case Broken(error, used) => Broken(error, n + used)
  }

  /** How collecting goes on from position n. */
  lemma CollectHead(s: seq<Byte>, raw: seq<Byte>, n: nat)
    requires n <= |s|
    ensures var c := Extend(raw, n, Collect(s[n..]));
            if n == |s| then c == Broken(MidFrame, n)
            else if s[n] == FLAG then c == Closed(raw, n + 1)
            else if s[n] != ESCAPE then c == Extend(raw + [s[n]], n + 1, Collect(s[n + 1..]))
            else if n + 1 == |s| then c == Broken(EscapeCut, n + 1)
            else if s[n + 1] == 0x01 then c == Extend(raw + [ESCAPE], n + 2, Collect(s[n + 2..]))
            else if s[n + 1] == 0x02 then c == Extend(raw + [FLAG], n + 2, Collect(s[n + 2..]))
            else c == Broken(BadEscape(s[n + 1]), n + 2)
  {
    var t := s[n..];
    if n < |s| {
      assert t[1..] == s[n + 1..];
      assert raw + [] == raw;
      var k := if s[n] == ESCAPE then 2 else 1;
      if n + k <= |s| {
        assert t[k..] == s[n + k..];
        var b := if s[n] != ESCAPE then s[n] else if s[n + 1] == 0x01 then ESCAPE else FLAG;
        match Collect(s[n + k..]) {
          case Closed(more, _) => assert raw + ([b] + more) == raw + [b] + more;
          case Broken(_, _) =>
        }
      }
    }
  }

  method DecodeRaw(raw: seq<Byte>) returns (r: Result<Frame, ReadError>)
    ensures r == Finish(raw)
  {
    if |raw| < 13 {
      return Err(TooShort(|raw|));
    }
    var payload, want := raw[..|raw| - 1], raw[|raw| - 1];
    var got := XorChecksum(payload);
    if got != want {
      return Err(BadChecksum(got, want));
    }
    var frame := ParsePayload(payload);
    r := Ok(frame);
  }

  method ParsePayload(payload: seq<Byte>) returns (f: Frame)
    requires |payload| >= HEADER
    ensures f == Parse(payload)
  {
    hide Bcd.Decode, GetU16;
    var rd := new Cursor(payload);
    var msgId := rd.TakeU16();
    var attrs := rd.TakeU16();
    var phoneBCD := rd.Take(6);
    var seqNum := rd.TakeU16();
    var phone := Bcd.DecodeBCD(phoneBCD);
    var subpackage, totalPkg, pkgSeq := false, 0, 0;
    if attrs / FRAGMENT_BIT % 2 == 1 {
      subpackage := true;
      totalPkg := rd.TakeU16();
      pkgSeq := rd.TakeU16();
    }
    var body := rd.Take(rd.Len());
    f := Frame(msgId, phone, seqNum, body, subpackage, totalPkg, pkgSeq);
  }

  // ---- writer ----

  method WriteFrame(w: Conn, msgId: U16, phone: Text, seqNum: U16, body: Text, delivered: bool) returns (ok: bool)
    modifies w`written
    ensures ok == (w.open && delivered)
    ensures w.written == old(w.written) + if ok then Written(msgId, phone, seqNum, body) else []
  {
    var hdr := BuildHeader(msgId, phone, seqNum, |body|);
    var raw := hdr + body;
    assert raw == Payload(msgId, phone, seqNum, body);
    var checksum := XorChecksum(raw);
    var out := Wrap(raw + [checksum]);
    ok := w.Write(out, delivered);
  }

  method BuildHeader(msgId: U16, phone: Text, seqNum: U16, length: nat) returns (header: seq<Byte>)
    ensures header == PutU16(msgId) + PutU16(length % LENGTH_LIMIT) + Bcd.Encode(phone) + PutU16(seqNum)
  {
    hide Bcd.Encode;
    var hdr := new Byte[12](_ => 0);
    hdr[0], hdr[1] := msgId / 0x100, msgId % 0x100;
    var attrs := length % 0x400;  // a 16-bit length masked to its low ten bits
    hdr[2], hdr[3] := attrs / 0x100, attrs % 0x100;
    var digits := Bcd.EncodeBCD(phone);
    forall i | 0 <= i < 6 {
      hdr[4 + i] := digits[i];
    }
    hdr[10], hdr[11] := seqNum / 0x100, seqNum % 0x100;
    header := hdr[..];
    assert header[4..10] == digits[..];
    assert header[0..2] == PutU16(msgId) && header[2..4] == PutU16(attrs) && header[10..12] == PutU16(seqNum);
    WireTheorems.HeaderFields(header, PutU16(msgId), PutU16(attrs), digits[..], PutU16(seqNum), []);
    assert header[12..] == [];
  }

  method Wrap(raw: seq<Byte>) returns (out: seq<Byte>)
    ensures out == [FLAG] + Escape(raw) + [FLAG]
  {
    out := [FLAG];
    for i := 0 to |raw|
      invariant out == [FLAG] + Escape(raw[..i])
    {
      hide Escape;
      ghost var before := Escape(raw[..i]);
      assert raw[..i + 1] == raw[..i] + [raw[i]];
      WireTheorems.EscapeSnoc(raw[..i], raw[i]);
      if raw[i] == 0x7e {
        out := out + [ESCAPE, 0x02];
      } else if raw[i] == 0x7d {
        out := out + [ESCAPE, 0x01];
      } else {
        out := out + [raw[i]];
      }
      assert out == [FLAG] + (before + EscapeByte(raw[i]));
    }
    assert raw[..|raw|] == raw;
    out := out + [FLAG];
  }
}
