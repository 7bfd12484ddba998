/**
  Terminal registration bodies (JT/T 808-2013 section 8.5). Devices send two layouts that
  differ in the width of the model field; the decoder tells them apart by length alone.
*/
module Registration {
  import opened Bytes
  import opened Codec
  import opened Wire
  import opened DeviceBodies

  datatype Info = Info(
    province: U16, city: U16, manufacturer: Text, model: Text, deviceId: Text, plateColor: Byte, plate: Text)

  datatype RegistrationError = BodyTooShort(length: nat)

  const STANDARD_MODEL: nat := 20
  const COMPACT_MODEL: nat := 8

  predicate Blank(b: Byte) {
    b == 0x00 || b == 0x20
  }

  /** s without the NULs and spaces at its end. */
  function Trim(s: Text): (t: Text)
    ensures |t| <= |s|
  {
    if s != [] && Blank(s[|s| - 1]) then Trim(s[..|s| - 1]) else s
  }

  function Decode(body: Text): Result<Info, RegistrationError> {
    if |body| < 17 then Err(BodyTooShort(|body|))
    else
      var width := if |body| - 9 >= 28 then STANDARD_MODEL else COMPACT_MODEL;
      var afterModel := 9 + width;
      var afterId := if |body| - afterModel >= 7 then afterModel + 7 else afterModel;
      Ok(Info(
        GetU16(body, 0), GetU16(body, 2), Trim(body[4..9]), Trim(body[9..afterModel]),
        Trim(body[afterModel..afterId]),
        if |body| > afterId then body[afterId] else 0,
        if |body| > afterId then Trim(body[afterId + 1..]) else []))
  }

  method NullTrimmed(b: seq<Byte>) returns (s: Text)
    ensures s == Trim(b)
  {
    var n := |b|;
    assert b[..n] == b;
    while n > 0 && (b[n - 1] == 0x00 || b[n - 1] == 0x20)
      invariant 0 <= n <= |b|
      invariant Trim(b) == Trim(b[..n])
    {
      assert b[..n][..n - 1] == b[..n - 1];
      n := n - 1;
    }
    s := b[..n];
  }

  /** The next n bytes, trimmed. */
  method TakeTrimmed(rd: Cursor, n: nat) returns (s: Text)
    requires rd.Valid() && n <= rd.Len()
    modifies rd
    ensures rd.Valid() && rd.pos == old(rd.pos) + n
    ensures s == Trim(rd.data[old(rd.pos)..old(rd.pos) + n])
  {
    var field := rd.Take(n);
    s := NullTrimmed(field);
  }

  method DecodeRegistration(body: Text) returns (r: Result<Info, RegistrationError>)
    ensures r == Decode(body)
  {
    hide Trim, GetU16;
    if |body| < 17 {
      return Err(BodyTooShort(|body|));
    }
    var rd := new Cursor(body);
    var province := rd.TakeU16();
    var city := rd.TakeU16();
    var manufacturer := TakeTrimmed(rd, 5);
    var model, deviceId, plate := [], [], [];
    var plateColor := 0;
    var modelLen := 8;
    if rd.Len() >= 28 {
      modelLen := 20;
    }
    if rd.Len() >= modelLen {
      model := TakeTrimmed(rd, modelLen);
    }
    TrimEmpty();
    if rd.Len() >= 7 {
      deviceId := TakeTrimmed(rd, 7);
    }
    if rd.Len() >= 1 {
      plateColor := rd.TakeU8();
      assert body[rd.pos..|body|] == body[rd.pos..];
    }
    if rd.Len() > 0 {
      plate := TakeTrimmed(rd, rd.Len());
    }
    r := Ok(Info(province, city, manufacturer, model, deviceId, plateColor, plate));
  }

  lemma TrimEmpty()
    ensures Trim([]) == []
  {
  }

  // ---- the two layouts ----

  /** A registration body whose model field has the given width. */
  function Body(info: Info, width: nat): Text {
    PutU16(info.province) + PutU16(info.city) + PadRight(info.manufacturer, 5) + PadRight(info.model, width) +
    PadRight(info.deviceId, 7) + [info.plateColor] + info.plate
  }

  predicate Trimmed(s: Text) {
    s == [] || !Blank(s[|s| - 1])
  }

  predicate FieldFits(s: Text, width: nat) {
    |s| <= width && Trimmed(s)
  }

  /** The texts fit their fields and end in neither NUL nor space. */
  predicate Fits(info: Info, width: nat) {
    FieldFits(info.manufacturer, 5) && FieldFits(info.model, width) && FieldFits(info.deviceId, 7) && Trimmed(info.plate)
  }

  lemma {:induction false} TrimOfTrimmed(s: Text)
    ensures Trimmed(Trim(s))
    ensures Trim(s) == s <==> Trimmed(s)
  {
    if s != [] && Blank(s[|s| - 1]) {
      TrimOfTrimmed(s[..|s| - 1]);
    }
  }

  lemma {:induction false} TrimDropsNulls(s: Text, n: nat)
    ensures Trim(s + Repeat(0, n)) == Trim(s)
    decreases n
  {
    var t := s + Repeat(0, n);
    if n == 0 {
      assert t == s;
    } else {
      assert t[..|t| - 1] == s + Repeat(0, n - 1);
      TrimDropsNulls(s, n - 1);
    }
  }

  /** A padded field gives its text back exactly when the text fits. */
  lemma FieldTrip(s: Text, width: nat)
    ensures Trim(PadRight(s, width)) == s <==> FieldFits(s, width)
  {
    var cut := s[..Min(|s|, width)];
    TrimDropsNulls(cut, width - |cut|);
    TrimOfTrimmed(cut);
    if |s| <= width {
      assert cut == s;
    }
  }

  lemma BodyFields(info: Info, width: nat)
    ensures var b := Body(info, width);
            && |b| == 17 + width + |info.plate|
            && GetU16(b, 0) == info.province && GetU16(b, 2) == info.city
            && b[4..9] == PadRight(info.manufacturer, 5) && b[9..9 + width] == PadRight(info.model, width)
            && b[9 + width..16 + width] == PadRight(info.deviceId, 7)
            && b[16 + width] == info.plateColor && b[17 + width..] == info.plate
  {
    hide PadRight;
    var b := Body(info, width);
    assert b == [] + PutU16(info.province) + b[2..];
    assert b == b[..2] + PutU16(info.city) + b[4..];
    U16RoundTrip([], info.province, b[2..]);
    U16RoundTrip(b[..2], info.city, b[4..]);
  }

  /** The standard layout decodes to its own fields, whatever the plate length, exactly when they fit. */
  lemma StandardTrip(info: Info)
    ensures Decode(Body(info, STANDARD_MODEL)) == Ok(info) <==> Fits(info, STANDARD_MODEL)
  {
    hide PadRight, GetU16, Trim, Body, FieldFits, Trimmed;
    BodyFields(info, STANDARD_MODEL);
    FieldTrip(info.manufacturer, 5);
    FieldTrip(info.model, STANDARD_MODEL);
    FieldTrip(info.deviceId, 7);
    TrimOfTrimmed(info.plate);
  }

  /** The compact layout does so exactly when, besides, the plate has at most eleven bytes. */
  lemma CompactTrip(info: Info)
    ensures Decode(Body(info, COMPACT_MODEL)) == Ok(info) <==> Fits(info, COMPACT_MODEL) && |info.plate| <= 11
  {
    hide PadRight, GetU16, Trim, Body, FieldFits, Trimmed;
    BodyFields(info, COMPACT_MODEL);
    FieldTrip(info.manufacturer, 5);
    FieldTrip(info.model, COMPACT_MODEL);
    FieldTrip(info.deviceId, 7);
    TrimOfTrimmed(info.plate);
    TrimEmpty();
  }

  /** b could have been laid out with a model field of that width. */
  ghost predicate LaidOut(b: Text, width: nat) {
    exists manufacturer: Text, model: Text, deviceId: Text, color: Byte, plate: Text, province: U16, city: U16 ::
      |manufacturer| == 5 && |model| == width && |deviceId| == 7 &&
      b == Body(Info(province, city, manufacturer, model, deviceId, color, plate), width)
  }

  lemma LongBodyIsLaidOut(b: Text, width: nat)
    requires |b| >= 17 + width
    ensures LaidOut(b, width)
  {
    var info := Info(GetU16(b, 0), GetU16(b, 2), b[4..9], b[9..9 + width], b[9 + width..16 + width], b[16 + width], b[17 + width..]);
    U16Inverse(b, 0);
    U16Inverse(b, 2);
    assert PadRight(info.manufacturer, 5) == info.manufacturer && PadRight(info.model, width) == info.model;
    assert PadRight(info.deviceId, 7) == info.deviceId;
    assert b == b[0..2] + b[2..4] + b[4..9] + b[9..9 + width] + b[9 + width..16 + width] + [b[16 + width]] + b[17 + width..];
    assert b == Body(info, width);
  }

  /**
    No detector that looks at the bytes can do better: one that recognises every standard body
    also takes every compact body with a plate of twelve bytes or more for a standard one.
  */
  lemma ThresholdIsBest(detect: Text -> bool, info: Info)
    requires forall b :: LaidOut(b, STANDARD_MODEL) ==> detect(b)
    requires |info.plate| >= 12
    ensures detect(Body(info, COMPACT_MODEL))
  {
    BodyFields(info, COMPACT_MODEL);
    LongBodyIsLaidOut(Body(info, COMPACT_MODEL), STANDARD_MODEL);
  }

  /** The simulator's registration is a standard body, so the server sees what the simulator meant when it fits. */
  lemma SimulatorTrip(imei: Text, model: Text)
    ensures var info := Info(6, 1, SIMCO, model, Suffix7(imei), 0x02, P901);
            && RegBody(imei, model) == Body(info, STANDARD_MODEL)
            && Decode(RegBody(imei, model)).Ok?
            && (Decode(RegBody(imei, model)) == Ok(info) <==> FieldFits(model, STANDARD_MODEL) && Trimmed(imei))
  {
    var info := Info(6, 1, SIMCO, model, Suffix7(imei), 0x02, P901);
    StandardTrip(info);
    hide Decode, PadRight;
    assert RegBody(imei, model) == Body(info, STANDARD_MODEL);
    assert Trimmed(Suffix7(imei)) <==> Trimmed(imei);
  }

  // ---- what the bytes of a registration say ----

  /** Trimming cuts off all NULs and spaces at the end and nothing else. */
  lemma {:induction false} TrimCuts(s: Text)
    ensures Trim(s) <= s
    ensures forall i :: |Trim(s)| <= i < |s| ==> s[i] == 0x00 || s[i] == 0x20
    ensures Trim(s) != [] ==> s[|Trim(s)| - 1] != 0x00 && s[|Trim(s)| - 1] != 0x20
  {
    if s != [] && (s[|s| - 1] == 0x00 || s[|s| - 1] == 0x20) {
      TrimCuts(s[..|s| - 1]);
    }
  }

  /** A field padded with spaces, NULs or both reads like the bare text. */
  lemma {:induction false} TrimIgnoresPadding(s: Text, padding: Text)
    requires s == [] || (s[|s| - 1] != 0x00 && s[|s| - 1] != 0x20)
    requires forall i :: 0 <= i < |padding| ==> padding[i] == 0x00 || padding[i] == 0x20
    ensures Trim(s + padding) == s
    decreases |padding|
  {
    var t := s + padding;
    if padding == [] {
      assert t == s;
    } else {
      assert t[|t| - 1] == padding[|padding| - 1];
      assert t[..|t| - 1] == s + padding[..|padding| - 1];
      TrimIgnoresPadding(s, padding[..|padding| - 1]);
    }
  }

  /** The layout by length: from 37 bytes on the model has twenty, below it eight, and below 24 there is no device id. */
  lemma RegistrationFromBytes(body: Text)
    ensures |body| < 17 ==> Decode(body) == Err(BodyTooShort(|body|))
    ensures |body| >= 17 ==>
              var r := Decode(body);
              && r.Ok?
              && r.value.province == 256 * (body[0] as int) + body[1] && r.value.city == 256 * (body[2] as int) + body[3]
              && r.value.manufacturer == Trim(body[4..9])
              && r.value.model == Trim(if |body| >= 37 then body[9..29] else body[9..17])
              && r.value.deviceId == (if |body| >= 37 then Trim(body[29..36]) else if |body| >= 24 then Trim(body[17..24]) else [])
              && var colorAt := if |body| >= 37 then 36 else if |body| >= 24 then 24 else 17;
                 && r.value.plateColor == (if |body| > colorAt then body[colorAt] else 0)
                 && r.value.plate == (if |body| > colorAt then Trim(body[colorAt + 1..]) else [])
  {
    hide Trim;
  }

  /** The simulator's body: province 6, city 1, "SIMCO", the model, the last seven characters of the IMEI, blue, "P901". */
  lemma SimulatorBytes(imei: Text, model: Text)
    ensures var b := RegBody(imei, model);
            && |b| == 41 && b[..9] == [0, 6, 0, 1, 0x53, 0x49, 0x4d, 0x43, 0x4f]
            && (forall i :: 0 <= i < 20 ==> b[9 + i] == if i < |model| then model[i] else 0)
            && (forall i :: 0 <= i < 7 ==>
                 b[29 + i] == if |imei| > 7 then imei[|imei| - 7 + i] else if i < |imei| then imei[i] else 0)
            && b[36..] == [2, 0x50, 0x39, 0x30, 0x31]
  {
    var b := RegBody(imei, model);
    assert PadRight(SIMCO, 5) == [0x53, 0x49, 0x4d, 0x43, 0x4f];
    hide PadRight, Suffix7;
    var m, d := PadRight(model, 20), PadRight(Suffix7(imei), 7);
    assert b[9..29] == m && b[29..36] == d;
    PaddedBytes(model, 20);
    PaddedBytes(Suffix7(imei), 7);
    SuffixBytes(imei);
  }

  lemma PaddedBytes(s: Text, n: nat)
    ensures |PadRight(s, n)| == n && forall i :: 0 <= i < n ==> PadRight(s, n)[i] == if i < |s| then s[i] else 0
  {
  }

  lemma SuffixBytes(imei: Text)
    ensures |Suffix7(imei)| == Min(|imei|, 7)
    ensures forall i :: 0 <= i < |Suffix7(imei)| ==> Suffix7(imei)[i] == if |imei| > 7 then imei[|imei| - 7 + i] else imei[i]
  {
  }
}
