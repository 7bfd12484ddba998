/** The message bodies the P901 simulator builds, and the device state they are built from. */
module DeviceBodies {
  import opened Bytes
  import Location

  /** The part of the simulator's state that goes into a report; real numbers stand for float64. */
  datatype State = State(latitude: real, longitude: real, heading: real, speed: real, battery: real, altitude: U16)

  datatype Time = Time(year: nat, month: nat, day: nat, hour: nat, minute: nat, second: nat) {
    predicate Valid() {
      year < 10000 && month < 100 && day < 100 && hour < 100 && minute < 100 && second < 100
    }
  }

  /** The magnitudes the wire fields can hold; outside them Go leaves the conversions open. */
  predicate WireRange(s: State) {
    && -4294.967296 < s.latitude < 4294.967296
    && -4294.967296 < s.longitude < 4294.967296
    && 0.0 <= s.heading < 65536.0
    && 0.0 <= s.speed < 6553.6
  }

  function Abs(x: real): real {
    if x < 0.0 then -x else x
  }

  /** Conversion of a float to an int: towards zero. */
  function Truncate(x: real): int {
    if x < 0.0 then -((-x).Floor) else x.Floor
  }

  function Clamp(v: int, lo: int, hi: int): int {
    if v < lo then lo else if v > hi then hi else v
  }

  function StatusWord(s: State): U32 {
    Location.LOCATED + Location.ACC_ON +
    (if s.latitude < 0.0 then Location.SOUTH else 0) + (if s.longitude < 0.0 then Location.WEST else 0)
  }

  function Battery(s: State): Byte {
    Clamp(Truncate(s.battery), 0, 100)
  }

  /** Two decimal digits in one byte. */
  function PackTwo(n: nat): Byte
    requires n < 100
  {
    n / 10 * 16 + n % 10
  }

  function PackTime(t: Time): (b: seq<Byte>)
    requires t.Valid()
    ensures |b| == 6
  {
    [PackTwo(t.year % 100), PackTwo(t.month), PackTwo(t.day), PackTwo(t.hour), PackTwo(t.minute), PackTwo(t.second)]
  }

  function Micro(degrees: real): U32
    requires -4294.967296 < degrees < 4294.967296
  {
    (Abs(degrees) * 1000000.0).Floor
  }

  function FixedPart(s: State, t: Time): Location.Fixed
    requires WireRange(s) && t.Valid()
  {
    Location.Fixed(0, StatusWord(s), Micro(s.latitude), Micro(s.longitude), s.altitude,
                   (s.speed * 10.0).Floor, s.heading.Floor, PackTime(t))
  }

  function ReportItems(s: State, signal: Byte): seq<Location.Item> {
    [Location.Item(0xEB, [Battery(s)]), Location.Item(0x30, [signal])]
  }

  /** The body of a location report, written down as the layout prescribes. */
  function LocationBody(s: State, t: Time, signal: Byte): Text
    requires WireRange(s) && t.Valid()
  {
    PutFixed(FixedPart(s, t)) + EncodeItems(ReportItems(s, signal))
  }

  function PutFixed(f: Location.Fixed): (b: seq<Byte>)
    requires |f.time| == 6
    ensures |b| == Location.FIXED
  {
    PutU32(f.alarm) + PutU32(f.status) + PutU32(f.latitude) + PutU32(f.longitude) +
    PutU16(f.altitude) + PutU16(f.speed) + PutU16(f.direction) + f.time
  }

  function EncodeItem(item: Location.Item): seq<Byte>
    requires |item.value| < 0x100
  {
    [item.id, |item.value|] + item.value
  }

  predicate Encodable(items: seq<Location.Item>) {
    forall i :: i in items ==> |i.value| < 0x100
  }

  function EncodeItems(items: seq<Location.Item>): seq<Byte>
    requires Encodable(items)
  {
    if items == [] then [] else EncodeItem(items[0]) + EncodeItems(items[1..])
  }

  /** The builder as it runs: sign bits first, then one append after another. */
  method BuildLocationBody(s: State, t: Time, signal: Byte) returns (b: Text)
    requires WireRange(s) && t.Valid()
    ensures b == LocationBody(s, t, signal)
  {
    hide PutU32, PutU16, PackTime;
    var statusFlags: U32 := Location.LOCATED + Location.ACC_ON;
    var lat, lon := s.latitude, s.longitude;
    if lat < 0.0 {
      statusFlags := statusFlags + Location.SOUTH;
      lat := -lat;
    }
    if lon < 0.0 {
      statusFlags := statusFlags + Location.WEST;
      lon := -lon;
    }
    b := PutU32(0);
    b := b + PutU32(statusFlags);
    b := b + PutU32((lat * 1000000.0).Floor);
    b := b + PutU32((lon * 1000000.0).Floor);
    b := b + PutU16(s.altitude);
    b := b + PutU16((s.speed * 10.0).Floor);
    b := b + PutU16(s.heading.Floor);
    b := b + PackTime(t);
    assert b == PutFixed(FixedPart(s, t));
    ghost var fixed := b;
    b := b + [0xEB, 0x01, Battery(s)];
    b := b + [0x30, 0x01, signal];
    TwoItems(s, signal);
    assert b == fixed + ([0xEB, 0x01, Battery(s)] + [0x30, 0x01, signal]);
  }

  lemma TwoItems(s: State, signal: Byte)
    ensures EncodeItems(ReportItems(s, signal)) == [0xEB, 0x01, Battery(s)] + [0x30, 0x01, signal]
  {
    var items := ReportItems(s, signal);
    assert EncodeItems(items) == EncodeItem(items[0]) + EncodeItems(items[1..]);
    assert EncodeItems(items[1..]) == EncodeItem(items[1]) + EncodeItems(items[1..][1..]);
  }

  // ---- registration ----

  /** s cut or padded with zero bytes to n. */
  function PadRight(s: Text, n: nat): (b: Text)
    ensures |b| == n
  {
    s[..Min(|s|, n)] + Repeat(0, n - Min(|s|, n))
  }

  const SIMCO: Text := [0x53, 0x49, 0x4d, 0x43, 0x4f]
  const P901: Text := [0x50, 0x39, 0x30, 0x31]

  /** At most the last seven characters. */
  function Suffix7(imei: Text): Text {
    if |imei| > 7 then imei[|imei| - 7..] else imei
  }

  method BuildRegBody(imei: Text, model: Text) returns (b: Text)
    ensures b == RegBody(imei, model)
  {
    b := PutU16(6);
    b := b + PutU16(1);
    b := b + PadRight(SIMCO, 5);
    b := b + PadRight(model, 20);
    var devID := imei;
    if |devID| > 7 {
      devID := devID[|devID| - 7..];
    }
    b := b + PadRight(devID, 7);
    b := b + [0x02];
    b := b + P901;
  }

  function RegBody(imei: Text, model: Text): (b: Text)
    ensures |b| == 41
  {
    PutU16(6) + PutU16(1) + PadRight(SIMCO, 5) + PadRight(model, 20) + PadRight(Suffix7(imei), 7) + [0x02] + P901
  }
}
