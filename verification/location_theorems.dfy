/** The item loop is exact on every body, and a report survives the trip from device to server. */
module LocationTheorems {
  import opened Bytes
  import opened Location
  import opened DeviceBodies
  import opened Wire

  // ---- items ----

  lemma ItemsAfter(item: Item, rest: seq<Byte>)
    requires |item.value| < 0x100
    ensures Items(EncodeItem(item) + rest) == [item] + Items(rest)
  {
    var s := EncodeItem(item) + rest;
    assert s[2..2 + |item.value|] == item.value && s[2 + |item.value|..] == rest;
  }

  lemma EncodeItemsCons(item: Item, more: seq<Item>)
    requires |item.value| < 0x100 && Encodable(more)
    ensures Encodable([item] + more) && EncodeItems([item] + more) == EncodeItem(item) + EncodeItems(more)
  {
    assert ([item] + more)[1..] == more;
  }

  lemma NoItems(tail: seq<Byte>)
    requires Stuck(tail)
    ensures EncodeItems([]) == [] && Items(tail) == []
  {
  }

  lemma SplitHead(s: seq<Byte>) returns (item: Item, rest: seq<Byte>)
    requires !Stuck(s)
    ensures |item.value| < 0x100 && |rest| < |s| && s == EncodeItem(item) + rest
  {
    item, rest := Item(s[0], s[2..2 + s[1]]), s[2 + s[1]..];
  }

  /** Encoded items followed by anything that is not a complete item decode to exactly those items. */
  lemma {:induction false} ItemsOfEncoded(items: seq<Item>, tail: seq<Byte>)
    requires Encodable(items) && Stuck(tail)
    ensures Items(EncodeItems(items) + tail) == items
  {
    hide Items, EncodeItems, EncodeItem, Stuck;
    NoItems(tail);
    if items == [] {
      assert EncodeItems(items) + tail == tail;
    } else {
      ItemsOfEncoded(items[1..], tail);
      var rest := EncodeItems(items[1..]) + tail;
      ItemsAfter(items[0], rest);
      assert items == [items[0]] + items[1..];
      EncodeItemsCons(items[0], items[1..]);
      assert EncodeItems(items) + tail == EncodeItem(items[0]) + rest;
    }
  }

  /** Every byte sequence splits into the items decoded from it and a tail where none starts. */
  lemma {:induction false} ItemsSplit(s: seq<Byte>) returns (tail: seq<Byte>)
    ensures Encodable(Items(s)) && Stuck(tail)
    ensures s == EncodeItems(Items(s)) + tail
    decreases |s|
  {
    if Stuck(s) {
      tail := s;
      NoItems(tail);
    } else {
      var item, rest := SplitHead(s);
      hide Items, EncodeItems, EncodeItem, Stuck;
      ItemsAfter(item, rest);
      tail := ItemsSplit(rest);
      EncodeItemsCons(item, Items(rest));
      assert EncodeItem(item) + (EncodeItems(Items(rest)) + tail) == EncodeItem(item) + EncodeItems(Items(rest)) + tail;
    }
  }

  /** And no other split goes further: any items s starts with are a prefix of the decoded ones. */
  lemma {:induction false} ItemsLongest(s: seq<Byte>, items: seq<Item>, rest: seq<Byte>)
    requires Encodable(items) && s == EncodeItems(items) + rest
    ensures items <= Items(s)
    decreases items
  {
    hide Items, EncodeItems, EncodeItem;
    if items != [] {
      var s' := EncodeItems(items[1..]) + rest;
      ItemsLongest(s', items[1..], rest);
      assert items == [items[0]] + items[1..];
      EncodeItemsCons(items[0], items[1..]);
      assert s == EncodeItem(items[0]) + s';
      ItemsAfter(items[0], s');
    }
  }

  /** The map holds exactly the ids that occur, each with the value of its last occurrence. */
  lemma {:induction false} LastWinsMeaning(items: seq<Item>)
    ensures forall id :: id in LastWins(items) <==> exists i :: 0 <= i < |items| && items[i].id == id
    ensures forall i :: 0 <= i < |items| && (forall j :: i < j < |items| ==> items[j].id != items[i].id) ==>
              items[i].id in LastWins(items) && LastWins(items)[items[i].id] == items[i].value
  {
    if items != [] {
      var n := |items| - 1;
      var init := items[..n];
      LastWinsMeaning(init);
      forall id ensures id in LastWins(items) <==> exists i :: 0 <= i < |items| && items[i].id == id {
        if id in LastWins(init) {
          var i :| 0 <= i < |init| && init[i].id == id;
          assert items[i].id == id;
        }
        if id == items[n].id {
          assert id in LastWins(items);
        }
        if i :| 0 <= i < |items| && items[i].id == id {
          assert i < n ==> init[i].id == id;
        }
      }
      forall i | 0 <= i < |items| && forall j :: i < j < |items| ==> items[j].id != items[i].id
        ensures items[i].id in LastWins(items) && LastWins(items)[items[i].id] == items[i].value
      {
        if i < n {
          assert init[i] == items[i];
          assert items[n].id != items[i].id;
          forall j | i < j < |init| ensures init[j].id != init[i].id {
            assert items[j].id != items[i].id;
          }
        }
      }
    }
  }

  /** A body of a fixed part, items and a tail decodes to that fixed part and the last-wins map of the items. */
  lemma DecodeEncoded(f: Fixed, items: seq<Item>, tail: seq<Byte>)
    requires |f.time| == 6 && Encodable(items) && Stuck(tail)
    ensures Decode(PutFixed(f) + (EncodeItems(items) + tail)) == Ok(Interpret(f, items))
  {
    hide EncodeItems, Items, Interpret, Stuck;
    ItemsOfEncoded(items, tail);
    var rest := EncodeItems(items) + tail;
    var body := PutFixed(f) + rest;
    assert body[FIXED..] == rest;
    FixedRoundTrip(f, rest);
  }

  lemma FixedRoundTrip(f: Fixed, rest: seq<Byte>)
    requires |f.time| == 6
    ensures GetFixed(PutFixed(f) + rest) == f
  {
    hide GetU32, GetU16, PutU32, PutU16;
    var a, b, c, d := PutU32(f.alarm), PutU32(f.status), PutU32(f.latitude), PutU32(f.longitude);
    var e, g, h := PutU16(f.altitude), PutU16(f.speed), PutU16(f.direction);
    FieldSizes(f);
    var s := PutFixed(f) + rest;
    U32RoundTrip([], f.alarm, s[4..]);
    U32RoundTrip(s[..4], f.status, s[8..]);
    U32RoundTrip(s[..8], f.latitude, s[12..]);
    U32RoundTrip(s[..12], f.longitude, s[16..]);
    U16RoundTrip(s[..16], f.altitude, s[18..]);
    U16RoundTrip(s[..18], f.speed, s[20..]);
    U16RoundTrip(s[..20], f.direction, s[22..]);
    assert s == [] + a + s[4..];
    assert s == s[..4] + b + s[8..];
    assert s == s[..8] + c + s[12..];
    assert s == s[..12] + d + s[16..];
    assert s == s[..16] + e + s[18..];
    assert s == s[..18] + g + s[20..];
    assert s == s[..20] + h + s[22..];
  }

  lemma FieldSizes(f: Fixed)
    ensures |PutU32(f.alarm)| == |PutU32(f.status)| == |PutU32(f.latitude)| == |PutU32(f.longitude)| == 4
    ensures |PutU16(f.altitude)| == |PutU16(f.speed)| == |PutU16(f.direction)| == 2
  {
  }

  // ---- the whole trip ----

  /** An ISO-8601 text of a time, with a four-digit year. */
  function Iso(t: Time): Text
    requires t.Valid()
  {
    Decimal2(t.year / 100) + Decimal2(t.year % 100) + [0x2d] + Decimal2(t.month) + [0x2d] + Decimal2(t.day) +
    [0x54] + Decimal2(t.hour) + [0x3a] + Decimal2(t.minute) + [0x3a] + Decimal2(t.second) + [0x5a]
  }

  function Decimal2(n: nat): Text
    requires n < 100
  {
    [0x30 + n / 10, 0x30 + n % 10]
  }

  /** The time of a report arrives intact exactly when its year lies in this century. */
  lemma TimestampTrip(t: Time)
    requires t.Valid()
    ensures Timestamp(PackTime(t)) == Iso(t) <==> 2000 <= t.year < 2100
  {
    PackedDigits(t.year % 100);
    PackedDigits(t.month);
    PackedDigits(t.day);
    PackedDigits(t.hour);
    PackedDigits(t.minute);
    PackedDigits(t.second);
    hide TwoDigits, PackTwo;
    var text, iso := Timestamp(PackTime(t)), Iso(t);
    assert iso[0..2] == Decimal2(t.year / 100) && text[0..2] == [0x32, 0x30];
    if t.year / 100 == 20 {
      assert Decimal2(20) == [0x32, 0x30];
    } else {
      assert Decimal2(t.year / 100)[0] != 0x32 || Decimal2(t.year / 100)[1] != 0x30;
      assert iso[0] == Decimal2(t.year / 100)[0] && iso[1] == Decimal2(t.year / 100)[1];
      assert text[0] == 0x32 && text[1] == 0x30;
    }
  }

  lemma PackedDigits(n: nat)
    requires n < 100
    ensures TwoDigits(PackTwo(n)) == Decimal2(n)
  {
  }

  predicate SameSign(x: real, y: real) {
    (x < 0.0 ==> y < 0.0) && (x > 0.0 ==> y > 0.0)
  }

  /** A degree decodes, sign included, to its truncation: nearer to zero by less than a millionth. */
  lemma DegreesTrip(x: real)
    requires -4294.967296 < x < 4294.967296
    ensures var y := Signed(Micro(x), x < 0.0);
            0.0 <= Abs(x) - Abs(y) < 0.000001 && Abs(x - y) < 0.000001 && (y == 0.0 || SameSign(x, y))
  {
    var m := Micro(x);
    var a := Abs(x) * 1000000.0;
    assert m as real <= a < m as real + 1.0;
    assert m as real / 1000000.0 <= Abs(x);
    assert Abs(x) < m as real / 1000000.0 + 0.000001;
  }

  lemma StatusBits(s: State)
    ensures Flag(StatusWord(s), LOCATED) && Flag(StatusWord(s), ACC_ON)
    ensures Flag(StatusWord(s), SOUTH) == (s.latitude < 0.0) && Flag(StatusWord(s), WEST) == (s.longitude < 0.0)
  {
  }

  /** What the server makes of a report the simulator built. */
  lemma ReportTrip(s: State, t: Time, signal: Byte)
    requires WireRange(s) && t.Valid()
    ensures var r := Decode(LocationBody(s, t, signal));
            r.Ok? && Faithful(r.value, s, t, signal)
  {
    var items := ReportItems(s, signal);
    DecodeEncoded(FixedPart(s, t), items, []);
    assert PutFixed(FixedPart(s, t)) + (EncodeItems(items) + []) == LocationBody(s, t, signal);
    StatusBits(s);
    DegreesTrip(s.latitude);
    DegreesTrip(s.longitude);
    TimestampTrip(t);
    var raw := (s.speed * 10.0).Floor;
    assert raw as real <= s.speed * 10.0 < raw as real + 1.0;
    LastWinsPair(items[0], items[1]);
  }

  lemma LastWinsPair(a: Item, b: Item)
    requires a.id != b.id
    ensures LastWins([a, b]) == map[a.id := a.value, b.id := b.value]
  {
    Location.LastWinsSnoc([a], b);
    Location.LastWinsSnoc([], a);
    assert [a] + [b] == [a, b] && [] + [a] == [a];
  }

  ghost predicate Faithful(fix: Fix, s: State, t: Time, signal: Byte)
    requires t.Valid()
  {
    && fix.alarm == 0 && fix.gpsFixed && fix.accOn
    && fix.status == 3 + (if s.latitude < 0.0 then 4 else 0) + (if s.longitude < 0.0 then 8 else 0)
    && Abs(s.latitude - fix.latitude) < 0.000001 && (fix.latitude == 0.0 || SameSign(s.latitude, fix.latitude))
    && Abs(s.longitude - fix.longitude) < 0.000001 && (fix.longitude == 0.0 || SameSign(s.longitude, fix.longitude))
    && 0.0 <= s.speed - fix.speed < 0.1
    && fix.altitude == s.altitude
    && fix.direction == s.heading.Floor
    && (2000 <= t.year < 2100 <==> fix.timestamp == Iso(t))
    && fix.extras == map[0xEB := [Battery(s)], 0x30 := [signal]]
  }

  /** The battery byte: the charge in whole percent, kept between 0 and 100. */
  lemma BatteryPercent(s: State)
    ensures Battery(s) <= 100
    ensures s.battery < 1.0 ==> Battery(s) == 0
    ensures 1.0 <= s.battery < 101.0 ==> Battery(s) as real <= s.battery < (Battery(s) + 1) as real
    ensures s.battery >= 100.0 ==> Battery(s) == 100
  {
  }

  // ---- what the bytes of a report say ----

  /** A number of two bytes, the first one high. */
  function Two(high: int, low: int): int {
    256 * high + low
  }

  lemma LowBits(high: nat, low: nat)
    requires low < 256
    ensures (256 * high + low) % 2 == low % 2
    ensures (256 * high + low) / 2 % 2 == low / 2 % 2
    ensures (256 * high + low) / 4 % 2 == low / 4 % 2
    ensures (256 * high + low) / 8 % 2 == low / 8 % 2
  {
    EvenPart(128 * high, low);
    Parts(high, low);
    EvenPart(64 * high, low / 2);
    EvenPart(32 * high, low / 4);
    EvenPart(16 * high, low / 8);
  }

  lemma EvenPart(n: nat, k: nat)
    ensures (2 * n + k) % 2 == k % 2
  {
  }

  lemma Parts(high: nat, low: nat)
    ensures (256 * high + low) / 2 == 2 * (64 * high) + low / 2
    ensures (256 * high + low) / 4 == 2 * (32 * high) + low / 4
    ensures (256 * high + low) / 8 == 2 * (16 * high) + low / 8
  {
  }

  /** The alarm and status words, the flags and the numbers of a report, from its bytes. */
  lemma ReportFromBytes(body: Text)
    requires |body| >= 28
    ensures var r := Decode(body);
            && r.Ok?
            && var fix := r.value;
               && fix.alarm == 65536 * Two(body[0], body[1]) + Two(body[2], body[3])
               && fix.status == 65536 * Two(body[4], body[5]) + Two(body[6], body[7])
               && (fix.Sos() <==> body[3] % 2 == 1)
               && (fix.accOn <==> body[7] % 2 == 1)
               && (fix.gpsFixed <==> body[7] / 2 % 2 == 1)
               && fix.latitude * 1000000.0 ==
                  (if body[7] / 4 % 2 == 1 then -1.0 else 1.0) * (65536 * Two(body[8], body[9]) + Two(body[10], body[11])) as real
               && fix.longitude * 1000000.0 ==
                  (if body[7] / 8 % 2 == 1 then -1.0 else 1.0) * (65536 * Two(body[12], body[13]) + Two(body[14], body[15])) as real
               && fix.altitude == Two(body[16], body[17])
               && fix.speed * 10.0 == Two(body[18], body[19]) as real
               && fix.direction == Two(body[20], body[21])
  {
    hide Items, LastWins, Timestamp;
    LowBits(256 * Two(body[0], body[1]) + body[2], body[3]);
    LowBits(256 * Two(body[4], body[5]) + body[6], body[7]);
  }

  /** The time of a report: "20", then two characters a byte with - - T : : between, then Z. */
  lemma TimeFromBytes(body: Text)
    requires |body| >= 28
    ensures var r := Decode(body);
            && r.Ok? && |r.value.timestamp| == 20
            && r.value.timestamp[..2] == [0x32, 0x30] && r.value.timestamp[4] == 0x2d && r.value.timestamp[7] == 0x2d
            && r.value.timestamp[10] == 0x54 && r.value.timestamp[13] == 0x3a && r.value.timestamp[16] == 0x3a
            && r.value.timestamp[19] == 0x5a
            && forall k :: 0 <= k < 6 ==>
                 var at := 2 + 3 * k;
                 r.value.timestamp[at] == 0x30 + body[22 + k] / 16 && r.value.timestamp[at + 1] == 0x30 + body[22 + k] % 16
  {
    hide Items, LastWins;
  }

  /** Shorter bodies are refused. */
  lemma ShortReport(body: Text)
    ensures Decode(body).Err? <==> |body| < 28
  {
  }
}
