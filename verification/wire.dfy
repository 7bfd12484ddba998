/**
  The wire format of a frame and what reading a byte stream means:
  flags, byte escaping, checksum and header (JT/T 808-2013 sections 4.4.1 to 4.4.4).
*/
module Wire {
  import opened Bytes
  import Bcd

  const FLAG: Byte := 0x7e
  const ESCAPE: Byte := 0x7d

  const HEADER: nat := 12
  const FRAGMENT_BIT: nat := 0x2000
  const LENGTH_LIMIT: nat := 0x400

  /** A decoded frame. */
  datatype Frame = Frame(
    msgId: U16, phone: Text, seqNum: U16, body: Text,
    subpackage: bool, totalPkg: U16, pkgSeq: U16)

  datatype ReadError =
    | EndOfInput
    | MidFrame
    | EscapeCut
    | BadEscape(b: Byte)
    | TooShort(length: nat)
    | BadChecksum(computed: Byte, found: Byte)

  datatype Result<+T, +E> = Ok(value: T) | Err(error: E)

  // ---- writing ----

  function EscapeByte(b: Byte): seq<Byte> {
    if b == FLAG then [ESCAPE, 0x02]
    else if b == ESCAPE then [ESCAPE, 0x01]
    else [b]
  }

  function Escape(raw: seq<Byte>): seq<Byte> {
    if raw == [] then [] else EscapeByte(raw[0]) + Escape(raw[1..])
  }

  function Payload(msgId: U16, phone: Text, seqNum: U16, body: Text): (p: seq<Byte>)
    ensures |p| == HEADER + |body|
  {
    PutU16(msgId) + PutU16(|body| % LENGTH_LIMIT) + Bcd.Encode(phone) + PutU16(seqNum) + body
  }

  function Seal(payload: seq<Byte>): seq<Byte> {
    payload + [XorAll(payload)]
  }

  function Enclose(payload: seq<Byte>): seq<Byte> {
    [FLAG] + Escape(Seal(payload)) + [FLAG]
  }

  /** The bytes a frame is written as. */
  function Written(msgId: U16, phone: Text, seqNum: U16, body: Text): seq<Byte> {
    Enclose(Payload(msgId, phone, seqNum, body))
  }

  // ---- reading ----

  /** Position of the first flag in s, or its length when there is none. */
  function Skip(s: seq<Byte>): (k: nat)
    ensures k <= |s|
  {
    if s == [] || s[0] == FLAG then 0 else 1 + Skip(s[1..])
  }

  /** What lies between an opening flag and the closing one, unescaped. */
  datatype Interior = Closed(raw: seq<Byte>, used: nat) | Broken(error: ReadError, used: nat) {
    function Push(b: Byte, n: nat): Interior {
      match this
      case Closed(raw, used) => Closed([b] + raw, used + n)
      case Broken(error, used) => Broken(error, used + n)
    }
  }

  function Collect(s: seq<Byte>): (c: Interior)
    ensures c.used <= |s|
  {
    if s == [] then Broken(MidFrame, 0)
    else if s[0] == FLAG then Closed([], 1)
    else if s[0] != ESCAPE then Collect(s[1..]).Push(s[0], 1)
    else if |s| == 1 then Broken(EscapeCut, 1)
    else if s[1] == 0x01 then Collect(s[2..]).Push(ESCAPE, 2)
    else if s[1] == 0x02 then Collect(s[2..]).Push(FLAG, 2)
    else Broken(BadEscape(s[1]), 2)
  }

  /** The header fields of a payload. A fragment header cut short reads as zeros and swallows what is left. */
  function Parse(p: seq<Byte>): Frame
    requires |p| >= HEADER
  {
    var fragment := GetU16(p, 2) / FRAGMENT_BIT % 2 == 1;
    Frame(
      GetU16(p, 0),
      Bcd.Decode(p[4..10]),
      GetU16(p, 10),
      if !fragment then p[12..] else if |p| >= 16 then p[16..] else [],
      fragment,
      if fragment && |p| >= 14 then GetU16(p, 12) else 0,
      if fragment && |p| >= 16 then GetU16(p, 14) else 0)
  }

  function Finish(raw: seq<Byte>): Result<Frame, ReadError> {
    if |raw| < HEADER + 1 then Err(TooShort(|raw|))
    else
      var p, want := raw[..|raw| - 1], raw[|raw| - 1];
      if XorAll(p) != want then Err(BadChecksum(XorAll(p), want)) else Ok(Parse(p))
  }

  /** The outcome of reading one frame, and how many bytes it took. */
  datatype Reading = Reading(outcome: Result<Frame, ReadError>, used: nat)

  function Read(s: seq<Byte>): (r: Reading)
    ensures r.used <= |s|
    ensures r.outcome.Ok? ==> r.used > 0
  {
    var k := Skip(s);
    if k == |s| then Reading(Err(EndOfInput), k)
    else
      match Collect(s[k + 1..])
      case Broken(error, used) => Reading(Err(error), k + 1 + used)
      case Closed(raw, used) => Reading(Finish(raw), k + 1 + used)
  }

  /** Reading frames until the first error. */
  datatype Stream = Stream(frames: seq<Frame>, error: ReadError)

  function ReadAll(s: seq<Byte>): Stream {
    var r := Read(s);
    match r.outcome
    case Err(error) => Stream([], error)
    case Ok(frame) =>
      var more := ReadAll(s[r.used..]);
      Stream([frame] + more.frames, more.error)
  }
}
