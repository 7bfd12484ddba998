/**
  Location reports (JT/T 808-2013 section 8.18): a fixed part of 28 bytes, then
  additional items, each an id, a length and that many bytes.
*/
module Location {
  import opened Bytes
  import opened Codec
  import opened Wire

  const FIXED: nat := 28

  /** A decoded report. Degrees and km/h are exact rationals here, where the program rounds to float64. */
  datatype Fix = Fix(
    alarm: U32, status: U32, latitude: real, longitude: real, altitude: U16, speed: real, direction: U16,
    timestamp: Text, gpsFixed: bool, accOn: bool, extras: map<Byte, Text>)
  {
    predicate Sos() {
      Flag(alarm, 1)
    }
  }

  datatype LocationError = BodyTooShort(length: nat)

  /** Whether the flag word has the bit of that weight set. */
  predicate Flag(word: U32, weight: nat)
    requires weight > 0
  {
    word / weight % 2 == 1
  }

  const ACC_ON: nat := 1
  const LOCATED: nat := 2
  const SOUTH: nat := 4
  const WEST: nat := 8

  // ---- additional items ----

  datatype Item = Item(id: Byte, value: Text)

  /** No further complete item starts here. */
  predicate Stuck(s: seq<Byte>) {
    |s| < 2 || |s| - 2 < s[1]
  }

  function Items(s: seq<Byte>): seq<Item> {
    if Stuck(s) then [] else [Item(s[0], s[2..2 + s[1]])] + Items(s[2 + s[1]..])
  }

  /** One value for each id: the last one wins. */
  function LastWins(items: seq<Item>): map<Byte, Text> {
    if items == [] then map[]
    else
      var last := items[|items| - 1];
      LastWins(items[..|items| - 1])[last.id := last.value]
  }

  // ---- the fixed part ----

  datatype Fixed = Fixed(
    alarm: U32, status: U32, latitude: U32, longitude: U32, altitude: U16, speed: U16, direction: U16,
    time: seq<Byte>)

  function GetFixed(body: Text): (f: Fixed)
    requires |body| >= FIXED
    ensures |f.time| == 6
  {
    Fixed(GetU32(body, 0), GetU32(body, 4), GetU32(body, 8), GetU32(body, 12),
          GetU16(body, 16), GetU16(body, 18), GetU16(body, 20), body[22..28])
  }

  function Signed(magnitude: U32, negative: bool): real {
    var degrees := magnitude as real / 1000000.0;
    if negative then -degrees else degrees
  }

  /** The two characters of a packed-decimal byte, unchecked. */
  function TwoDigits(b: Byte): Text {
    [0x30 + b / 16, 0x30 + b % 16]
  }

  /** "20YY-MM-DDTHH:mm:ssZ" */
  function Timestamp(time: seq<Byte>): Text
    requires |time| == 6
  {
    [0x32, 0x30] + TwoDigits(time[0]) + [0x2d] + TwoDigits(time[1]) + [0x2d] + TwoDigits(time[2]) +
    [0x54] + TwoDigits(time[3]) + [0x3a] + TwoDigits(time[4]) + [0x3a] + TwoDigits(time[5]) + [0x5a]
  }

  function Interpret(f: Fixed, items: seq<Item>): Fix
    requires |f.time| == 6
  {
    Fix(f.alarm, f.status, Signed(f.latitude, Flag(f.status, SOUTH)), Signed(f.longitude, Flag(f.status, WEST)),
        f.altitude, f.speed as real / 10.0, f.direction, Timestamp(f.time),
        Flag(f.status, LOCATED), Flag(f.status, ACC_ON), LastWins(items))
  }

  function Decode(body: Text): Result<Fix, LocationError> {
    if |body| < FIXED then Err(BodyTooShort(|body|))
    else Ok(Interpret(GetFixed(body), Items(body[FIXED..])))
  }

  // ---- the decoder ----

  method DecodeLocation(body: Text) returns (r: Result<Fix, LocationError>)
    ensures r == Decode(body)
  {
    hide GetU16, GetU32, Items, LastWins, Timestamp;
    if |body| < 28 {
      return Err(BodyTooShort(|body|));
    }
    var rd := new Cursor(body);
    var alarm := rd.TakeU32();
    var status := rd.TakeU32();
    var rawLat := rd.TakeU32();
    var rawLon := rd.TakeU32();
    var lat, lon := rawLat as real / 1000000.0, rawLon as real / 1000000.0;
    if status / 4 % 2 == 1 {
      lat := -lat;
    }
    if status / 8 % 2 == 1 {
      lon := -lon;
    }
    var altitude := rd.TakeU16();
    var speed := rd.TakeU16();
    var direction := rd.TakeU16();
    var time := rd.Take(6);
    var timestamp := ParseBCDTimestamp(time);
    var extras := DecodeExtras(rd);
    r := Ok(Fix(alarm, status, lat, lon, altitude, speed as real / 10.0, direction, timestamp,
                status / 2 % 2 == 1, status % 2 == 1, extras));
  }

  method ParseBCDTimestamp(b: seq<Byte>) returns (text: Text)
    requires |b| == 6
    ensures text == Timestamp(b)
  {
    var d := new Byte[12](_ => 0);
    for i := 0 to 6
      invariant d.Length == 12
      invariant forall k :: 0 <= k < i ==> d[2 * k] == 0x30 + b[k] / 16 && d[2 * k + 1] == 0x30 + b[k] % 16
    {
      d[i * 2] := 0x30 + b[i] / 16;
      d[i * 2 + 1] := 0x30 + b[i] % 16;
    }
    forall k | 0 <= k < 6 ensures d[2 * k..2 * k + 2] == TwoDigits(b[k]) {
    }
    assert d[0..2] == TwoDigits(b[0]) && d[2..4] == TwoDigits(b[1]) && d[4..6] == TwoDigits(b[2]);
    assert d[6..8] == TwoDigits(b[3]) && d[8..10] == TwoDigits(b[4]) && d[10..12] == TwoDigits(b[5]);
    text := [0x32, 0x30] + d[0..2] + [0x2d] + d[2..4] + [0x2d] + d[4..6] +
            [0x54] + d[6..8] + [0x3a] + d[8..10] + [0x3a] + d[10..12] + [0x5a];
  }

  method DecodeExtras(rd: Cursor) returns (extras: map<Byte, Text>)
    requires rd.Valid()
    modifies rd
    ensures rd.Valid() && extras == LastWins(Items(old(rd.data[rd.pos..])))
  {
    hide Items, LastWins;
    extras := map[];
    ghost var all := rd.data[rd.pos..];
    ghost var done: seq<Item> := [];
    LastWinsNone();
    while rd.Len() >= 2
      invariant rd.Valid()
      invariant Items(all) == done + Items(rd.data[rd.pos..])
      invariant extras == LastWins(done)
      decreases rd.Len()
    {
      ghost var rest := rd.data[rd.pos..];
      ItemsHead(rest);
      var id := rd.TakeU8();
      var length := rd.TakeU8();
      if rd.Len() < length {
        assert done + [] == done;
        return;
      }
      var value := rd.Take(length);
      extras := extras[id := value];
      assert value == rest[2..2 + length] && rest[2 + length..] == rd.data[rd.pos..];
      LastWinsSnoc(done, Item(id, value));
      assert done + ([Item(id, value)] + Items(rd.data[rd.pos..])) == done + [Item(id, value)] + Items(rd.data[rd.pos..]);
      done := done + [Item(id, value)];
    }
    ItemsHead(rd.data[rd.pos..]);
    assert done + [] == done;
  }

  lemma LastWinsNone()
    ensures LastWins([]) == map[]
  {
  }

  lemma LastWinsSnoc(items: seq<Item>, last: Item)
    ensures LastWins(items + [last]) == LastWins(items)[last.id := last.value]
  {
    assert (items + [last])[..|items|] == items;
  }

  lemma ItemsHead(s: seq<Byte>)
    ensures Items(s) == if Stuck(s) then [] else [Item(s[0], s[2..2 + s[1]])] + Items(s[2 + s[1]..])
  {
  }
}
