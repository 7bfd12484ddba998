/** What a device and the server say to each other, exchange by exchange, and that each accepts what the other said. */
module Exchange {
  import opened Bytes
  import opened Wire
  import opened WireTheorems
  import opened World
  import opened Device
  import Bcd
  import DeviceBodies
  import Registration
  import Discipline

  /** A device: its identity and the orders its clocks will give. */
  datatype Gear = Gear(imei: Text, model: Text, orders: seq<Order>) {
    predicate Valid() {
      AllValid(orders)
    }

    /** How many requests it makes. */
    function Length(): nat {
      2 + |orders|
    }

    /** The phone the server makes out: what the six bytes of the header can carry of the IMEI. */
    function Heard(): Text {
      Bcd.Decode(Bcd.Encode(imei))
    }
  }

  /** The k-th request, counted from zero, when the server has handed out token. */
  function Query(g: Gear, token: Text, k: nat): Message
    requires g.Valid() && k < g.Length()
  {
    if k == 0 then Message(REGISTRATION, g.imei, 1, DeviceBodies.RegBody(g.imei, g.model))
    else if k == 1 then Message(AUTHENTICATION, g.imei, 2, token)
    else OrderMessage(g.imei, k, g.orders[k - 2])
  }

  /** The server's answer to it. */
  function Answer(g: Gear, token: Text, k: nat): Message
    requires g.Valid() && k < g.Length()
  {
    var m := Query(g, token, k);
    if k == 0 then Message(REGISTRATION_RESP, g.Heard(), 1, RegistrationAckBody(m.seqNum, REG_SUCCESS, token))
    else Message(PLATFORM_RESP, g.Heard(), (k + 1) % 0x1_0000, AckBody(m.seqNum, m.msgId, OK))
  }

  /** Requests i to k - 1. */
  function Asks(g: Gear, token: Text, i: nat, k: nat): seq<Message>
    requires g.Valid() && i <= k <= g.Length()
    decreases k - i
  {
    if i == k then [] else [Query(g, token, i)] + Asks(g, token, i + 1, k)
  }

  /** The bytes of answers i to k - 1. */
  function Answers(g: Gear, token: Text, i: nat, k: nat): seq<Byte>
    requires g.Valid() && i <= k <= g.Length()
    decreases k - i
  {
    if i == k then [] else Answer(g, token, i).Bytes() + Answers(g, token, i + 1, k)
  }

  lemma {:induction false} AnswersSnoc(g: Gear, token: Text, i: nat, k: nat)
    requires g.Valid() && i <= k < g.Length()
    ensures Answers(g, token, i, k + 1) == Answers(g, token, i, k) + Answer(g, token, k).Bytes()
    decreases k - i
  {
    hide Message.Bytes, Answer;
    if i == k {
      assert Answer(g, token, k).Bytes() + [] == [] + Answer(g, token, k).Bytes();
    } else {
      AnswersSnoc(g, token, i + 1, k);
      var b := Answer(g, token, i).Bytes();
      assert b + (Answers(g, token, i + 1, k) + Answer(g, token, k).Bytes())
          == b + Answers(g, token, i + 1, k) + Answer(g, token, k).Bytes();
    }
  }

  lemma NoAnswers(g: Gear, token: Text)
    requires g.Valid()
    ensures Answers(g, token, 0, 0) == []
  {
  }

  lemma {:induction false} AsksAt(g: Gear, token: Text, i: nat, k: nat, j: nat)
    requires g.Valid() && i <= j < k <= g.Length()
    ensures |Asks(g, token, i, k)| == k - i && Asks(g, token, i, k)[j - i] == Query(g, token, j)
    decreases k - i
  {
    hide Query;
    if i < j {
      AsksAt(g, token, i + 1, k, j);
    } else if i + 1 < k {
      AsksAt(g, token, i + 1, k, i + 1);
    }
  }

  // ---- the device's side ----

  /** An answer is read as it was meant, whatever follows. */
  lemma AnswerIsRead(g: Gear, token: Text, k: nat, rest: seq<Byte>)
    requires g.Valid() && k < g.Length()
    ensures var a := Answer(g, token, k);
            Read(a.Bytes() + rest) == Reading(Ok(a.Received()), |a.Bytes()|)
  {
    hide Answer, Read, Message.Received, Message.Bytes;
    var a := Answer(g, token, k);
    ReadWritten(a, [], rest);
    assert [] + a.Bytes() + rest == a.Bytes() + rest;
  }

  /** Reply k repeats the sequence number of request k and, if it is a general response, its message id. */
  lemma AnswerEchoes(g: Gear, token: Text, k: nat, rest: seq<Byte>)
    requires g.Valid() && k < g.Length()
    ensures var m, r := Query(g, token, k), Read(Answer(g, token, k).Bytes() + rest).outcome;
            && r.Ok? && r.value.seqNum == m.seqNum == (k + 1) % 0x1_0000
            && |r.value.body| >= 3 && GetU16(r.value.body, 0) == m.seqNum
            && (k == 0 ==> r.value.msgId == REGISTRATION_RESP && r.value.body[2] == REG_SUCCESS && r.value.body[3..] == token)
            && (k > 0 ==> r.value.msgId == PLATFORM_RESP && |r.value.body| == 5
                          && GetU16(r.value.body, 2) == m.msgId && r.value.body[4] == OK)
  {
    hide Read, GetU16, PutU16, Order.Body, Order.MsgId, Message.Bytes, AckBody, RegistrationAckBody, Bcd.Encode, Bcd.Decode,
         DeviceBodies.RegBody;
    AnswerIsRead(g, token, k, rest);
    var m := Query(g, token, k);
    AckFields(m.seqNum, m.msgId, OK);
    RegistrationAckFields(m.seqNum, REG_SUCCESS, token);
  }

  lemma AckFields(seqNum: U16, msgId: U16, result: Byte)
    ensures var body := AckBody(seqNum, msgId, result);
            |body| == 5 && GetU16(body, 0) == seqNum && GetU16(body, 2) == msgId && body[4] == result
  {
    U16RoundTrip([], seqNum, PutU16(msgId) + [result]);
    U16RoundTrip(PutU16(seqNum), msgId, [result]);
    assert [] + PutU16(seqNum) + (PutU16(msgId) + [result]) == AckBody(seqNum, msgId, result);
  }

  lemma RegistrationAckFields(seqNum: U16, result: Byte, token: Text)
    ensures var body := RegistrationAckBody(seqNum, result, token);
            |body| >= 3 && GetU16(body, 0) == seqNum && body[2] == result && body[3..] == token
  {
    U16RoundTrip([], seqNum, [result] + token);
    assert [] + PutU16(seqNum) + ([result] + token) == RegistrationAckBody(seqNum, result, token);
  }

  /** Every write of the device goes through. */
  const ALWAYS: nat -> bool := (k: nat) => true

  const BLOCKED_READ: Outcome := Failed(Unread(EndOfInput))

  lemma NothingToRead()
    ensures Read([]) == Reading(Err(EndOfInput), 0)
  {
  }

  /** How the device stands once it has read k answers: waiting for the next one, unless that was all. */
  function OutcomeAfter(g: Gear, k: nat): Outcome {
    if k == g.Length() then Running else BLOCKED_READ
  }

  lemma {:induction false} FollowOn(g: Gear, token: Text, i: nat, k: nat)
    requires g.Valid() && 2 <= i <= k <= g.Length()
    ensures Follow(g.imei, i, g.orders[i - 2..], Answers(g, token, i, k), ALWAYS)
         == Story(Asks(g, token, i, Min(k + 1, g.Length())), OutcomeAfter(g, k))
    decreases k - i
  {
    hide Read, OrderMessage, Message.Bytes, Answer, Query, GetU16;
    NothingToRead();
    if i == g.Length() {
      assert g.orders[i - 2..] == [];
    } else {
      QueryLater(g, token, i);
      assert g.orders[i - 2..][0] == g.orders[i - 2] && g.orders[i - 2..][1..] == g.orders[i - 1..];
      if i < k {
        FollowOn(g, token, i + 1, k);
        var rest := Answers(g, token, i + 1, k);
        AnswerIsRead(g, token, i, rest);
        AnswerEchoes(g, token, i, rest);
        assert (Answer(g, token, i).Bytes() + rest)[|Answer(g, token, i).Bytes()|..] == rest;
      }
    }
  }

  lemma QueryLater(g: Gear, token: Text, k: nat)
    requires g.Valid() && 2 <= k < g.Length()
    ensures Query(g, token, k) == OrderMessage(g.imei, k, g.orders[k - 2])
  {
  }

  /** The story of a device that has been sent wire. */
  function Tell(g: Gear, wire: seq<Byte>): Story
    requires g.Valid()
  {
    Enroll(g.imei, g.model, g.orders, wire, ALWAYS)
  }

  /** Having read the first k answers, the device has made one request more, or all, and has found nothing amiss. */
  lemma DeviceGoesOn(g: Gear, token: Text, k: nat)
    requires g.Valid() && k <= g.Length()
    ensures Tell(g, Answers(g, token, 0, k)) == Story(Asks(g, token, 0, Min(k + 1, g.Length())), OutcomeAfter(g, k))
  {
    hide Read, Follow, Message.Bytes, Answer, GetU16, DeviceBodies.RegBody;
    NothingToRead();
    if k > 0 {
      var rest := Answers(g, token, 1, k);
      AnswerIsRead(g, token, 0, rest);
      AnswerEchoes(g, token, 0, rest);
      assert (Answer(g, token, 0).Bytes() + rest)[|Answer(g, token, 0).Bytes()|..] == rest;
      AuthenticatedOn(g, token, k);
    } else {
      assert Asks(g, token, 1, 1) == [];
    }
  }

  lemma AuthenticatedOn(g: Gear, token: Text, k: nat)
    requires g.Valid() && 1 <= k <= g.Length()
    ensures Authenticate(g.imei, token, g.orders, Answers(g, token, 1, k), ALWAYS)
         == Story(Asks(g, token, 1, Min(k + 1, g.Length())), OutcomeAfter(g, k))
  {
    hide Read, Follow, Message.Bytes, Answer, GetU16;
    NothingToRead();
    if k > 1 {
      var rest := Answers(g, token, 2, k);
      AnswerIsRead(g, token, 1, rest);
      AnswerEchoes(g, token, 1, rest);
      assert (Answer(g, token, 1).Bytes() + rest)[|Answer(g, token, 1).Bytes()|..] == rest;
      FollowOn(g, token, 2, k);
      assert g.orders[0..] == g.orders;
    } else {
      assert Asks(g, token, 2, 2) == [];
    }
  }

  // ---- which dialogues the device accepts ----

  /** Frame k of the server satisfies the device. Sequence numbers do not matter to it, nor do short acknowledgements. */
  predicate Satisfies(g: Gear, k: nat, f: Frame)
    requires k < g.Length()
  {
    if k == 0 then f.msgId == REGISTRATION_RESP && |f.body| >= 3 && f.body[2] == REG_SUCCESS
    else
      && f.msgId == PLATFORM_RESP
      && (k == 1 ==> |f.body| >= 5)
      && (|f.body| >= 5 ==> f.body[4] == OK && (k >= 2 ==> GetU16(f.body, 2) == g.orders[k - 2].MsgId()))
  }

  /** From frame i on, there are enough of them and each satisfies the device. */
  ghost predicate SatisfiedFrom(g: Gear, i: nat, frames: seq<Frame>)
    requires i <= g.Length()
  {
    |frames| >= g.Length() - i && forall j :: 0 <= j < g.Length() - i ==> Satisfies(g, i + j, frames[j])
  }

  /** One frame more in front. */
  lemma SatisfiedStep(g: Gear, i: nat, input: seq<Byte>)
    requires i < g.Length()
    ensures SatisfiedFrom(g, i, ReadAll(input).frames) <==>
            var r := Read(input);
            r.outcome.Ok? && Satisfies(g, i, r.outcome.value) && SatisfiedFrom(g, i + 1, ReadAll(input[r.used..]).frames)
  {
    hide Read, Satisfies;
    var r := Read(input);
    if r.outcome.Ok? {
      var f, more := r.outcome.value, ReadAll(input[r.used..]).frames;
      SatisfiedCons(g, i, f, more);
    }
  }

  lemma SatisfiedCons(g: Gear, i: nat, f: Frame, more: seq<Frame>)
    requires i < g.Length()
    ensures SatisfiedFrom(g, i, [f] + more) <==> Satisfies(g, i, f) && SatisfiedFrom(g, i + 1, more)
  {
    hide Satisfies;
    var frames := [f] + more;
    if SatisfiedFrom(g, i, frames) {
      assert frames[0] == f;
      forall j | 0 <= j < g.Length() - (i + 1) ensures Satisfies(g, i + 1 + j, more[j]) {
        assert frames[j + 1] == more[j];
      }
    }
  }

  /** The writes of requests i to the last go through. */
  ghost predicate WritesSucceed(g: Gear, i: nat, delivers: nat -> bool) {
    forall k :: i <= k < g.Length() ==> delivers(k)
  }

  lemma {:induction false} FollowIsExact(g: Gear, i: nat, input: seq<Byte>, delivers: nat -> bool)
    requires g.Valid() && 2 <= i <= g.Length()
    ensures Follow(g.imei, i, g.orders[i - 2..], input, delivers).outcome == Running <==>
            SatisfiedFrom(g, i, ReadAll(input).frames) && WritesSucceed(g, i, delivers)
    decreases g.Length() - i
  {
    hide Read, SatisfiedFrom, GetU16, Order.Body;
    if i == g.Length() {
      assert g.orders[i - 2..] == [];
      NothingLeft(g, ReadAll(input).frames);
    } else {
      SatisfiedStep(g, i, input);
      assert g.orders[i - 2..][0] == g.orders[i - 2] && g.orders[i - 2..][1..] == g.orders[i - 1..];
      FollowIsExact(g, i + 1, input[Read(input).used..], delivers);
      assert WritesSucceed(g, i, delivers) <==> delivers(i) && WritesSucceed(g, i + 1, delivers);
    }
  }

  lemma NothingLeft(g: Gear, frames: seq<Frame>)
    ensures SatisfiedFrom(g, g.Length(), frames)
  {
  }

  /**
    Whatever bytes arrive, from a server or not, and whichever of its writes fail: the device
    gets through all its orders exactly when none of them fails and the frames it reads satisfy
    it one by one.
  */
  lemma DialogueIsExact(g: Gear, input: seq<Byte>, delivers: nat -> bool)
    requires g.Valid()
    ensures Enroll(g.imei, g.model, g.orders, input, delivers).outcome == Running <==>
            SatisfiedFrom(g, 0, ReadAll(input).frames) && WritesSucceed(g, 0, delivers)
  {
    hide Read, SatisfiedFrom, GetU16, Follow, DeviceBodies.RegBody;
    SatisfiedStep(g, 0, input);
    var rest := input[Read(input).used..];
    SatisfiedStep(g, 1, rest);
    assert g.orders[0..] == g.orders;
    FollowIsExact(g, 2, rest[Read(rest).used..], delivers);
    assert WritesSucceed(g, 0, delivers) <==> delivers(0) && delivers(1) && WritesSucceed(g, 2, delivers);
  }

  // ---- everything the device does, on any input ----

  /** The last of n requests from i on was answered to the device's satisfaction, or there was none. */
  predicate Content(g: Gear, i: nat, n: nat, frames: seq<Frame>)
    requires i + n <= g.Length()
  {
    n == 0 || (n - 1 < |frames| && Satisfies(g, i + n - 1, frames[n - 1]))
  }

  /** The first n frames satisfy the device, from request i on. */
  ghost predicate SatisfiedFirst(g: Gear, i: nat, n: int, frames: seq<Frame>)
    requires i + n <= g.Length()
  {
    n <= |frames| && forall j :: 0 <= j < n ==> Satisfies(g, i + j, frames[j])
  }

  lemma SatisfiedFirstCons(g: Gear, i: nat, n: int, f: Frame, rest: seq<Frame>)
    requires i + 1 + n <= g.Length() && i < g.Length() && Satisfies(g, i, f) && SatisfiedFirst(g, i + 1, n, rest)
    ensures SatisfiedFirst(g, i, n + 1, [f] + rest)
  {
    hide Satisfies;
    var frames := [f] + rest;
    forall j | 0 <= j < n + 1 ensures Satisfies(g, i + j, frames[j]) {
      if j > 0 {
        assert Satisfies(g, i + 1 + (j - 1), rest[j - 1]) && frames[j] == rest[j - 1];
      }
    }
  }

  /**
    The story from request i on: the requests are made in order as long as writes succeed and
    the answers satisfy; it goes well if all are made, ends unsent at the first write that
    fails, and else at the first answer that does not satisfy or does not come.
  */
  ghost predicate Tells(g: Gear, token: Text, i: nat, frames: seq<Frame>, delivers: nat -> bool, story: Story)
    requires g.Valid() && i <= g.Length()
  {
    var n := |story.sent|;
    && i + n <= g.Length() && story.sent == Asks(g, token, i, i + n)
    && (forall k :: i <= k < i + n ==> delivers(k))
    && SatisfiedFirst(g, i, n - 1, frames)
    && (story.outcome == Running <==> Content(g, i, n, frames) && i + n == g.Length())
    && (story.outcome == Failed(Unsent) <==> Content(g, i, n, frames) && i + n < g.Length())
    && (Content(g, i, n, frames) && i + n < g.Length() ==> !delivers(i + n))
  }

  lemma UnsentTells(g: Gear, token: Text, i: nat, frames: seq<Frame>, delivers: nat -> bool)
    requires g.Valid() && i < g.Length() && !delivers(i)
    ensures Tells(g, token, i, frames, delivers, Story([], Failed(Unsent)))
  {
  }

  lemma DoneTells(g: Gear, token: Text, frames: seq<Frame>, delivers: nat -> bool)
    requires g.Valid()
    ensures Tells(g, token, g.Length(), frames, delivers, Story([], Running))
  {
  }

  /** One request: the answer does not satisfy, and that is the end, or it does and the story goes on. */
  lemma RequestTells(g: Gear, token: Text, i: nat, input: seq<Byte>, delivers: nat -> bool, verdict: Outcome, more: Story)
    requires g.Valid() && i < g.Length() && delivers(i)
    requires var r := Read(input).outcome;
             (verdict == Running <==> r.Ok? && Satisfies(g, i, r.value)) && verdict != Failed(Unsent)
    requires verdict == Running ==> Tells(g, token, i + 1, ReadAll(input[Read(input).used..]).frames, delivers, more)
    ensures var m := Query(g, token, i);
            Tells(g, token, i, ReadAll(input).frames, delivers, if verdict == Running then more.After([m]) else Story([m], verdict))
  {
    hide Read, Satisfies, Query;
    var r, m := Read(input), Query(g, token, i);
    var frames := ReadAll(input).frames;
    if verdict == Running {
      var rest := ReadAll(input[r.used..]).frames;
      assert frames == [r.outcome.value] + rest;
      GoesOnTelling(g, token, i, r.outcome.value, rest, delivers, more);
    } else {
      assert Asks(g, token, i + 1, i + 1) == [];
      assert r.outcome.Ok? ==> frames[0] == r.outcome.value;
    }
  }

  lemma GoesOnTelling(g: Gear, token: Text, i: nat, f: Frame, rest: seq<Frame>, delivers: nat -> bool, more: Story)
    requires g.Valid() && i < g.Length() && delivers(i) && Satisfies(g, i, f)
    requires Tells(g, token, i + 1, rest, delivers, more)
    ensures Tells(g, token, i, [f] + rest, delivers, more.After([Query(g, token, i)]))
  {
    hide Satisfies, Query;
    var frames, n := [f] + rest, |more.sent|;
    SatisfiedFirstCons(g, i, n - 1, f, rest);
    ContentMoves(g, i, n, f, rest);
    var story := more.After([Query(g, token, i)]);
    assert story.sent == Asks(g, token, i, i + (n + 1)) && |story.sent| == n + 1;
    hide Asks, Content, SatisfiedFirst;
    assert forall k :: i <= k < i + (n + 1) ==> delivers(k);
    assert SatisfiedFirst(g, i, n, frames);
  }

  lemma ContentMoves(g: Gear, i: nat, n: nat, f: Frame, rest: seq<Frame>)
    requires i + 1 + n <= g.Length() && Satisfies(g, i, f)
    ensures Content(g, i, n + 1, [f] + rest) <==> Content(g, i + 1, n, rest)
  {
    hide Satisfies;
    if n > 0 && n - 1 < |rest| {
      assert ([f] + rest)[n] == rest[n - 1];
    }
  }

  lemma {:induction false} FollowTells(g: Gear, token: Text, i: nat, input: seq<Byte>, delivers: nat -> bool)
    requires g.Valid() && 2 <= i <= g.Length()
    ensures Tells(g, token, i, ReadAll(input).frames, delivers, Follow(g.imei, i, g.orders[i - 2..], input, delivers))
    decreases g.Length() - i
  {
    hide Read, Tells, GetU16, Order.Body, OrderMessage;
    if i == g.Length() {
      assert g.orders[i - 2..] == [];
      DoneTells(g, token, ReadAll(input).frames, delivers);
    } else {
      assert g.orders[i - 2..][0] == g.orders[i - 2] && g.orders[i - 2..][1..] == g.orders[i - 1..];
      QueryLater(g, token, i);
      if !delivers(i) {
        UnsentTells(g, token, i, ReadAll(input).frames, delivers);
      } else {
        var r := Read(input);
        var verdict := JudgeAck(r.outcome, g.orders[i - 2].MsgId());
        var more := Story([], Running);
        if verdict == Running {
          FollowTells(g, token, i + 1, input[r.used..], delivers);
          more := Follow(g.imei, i + 1, g.orders[i - 1..], input[r.used..], delivers);
        }
        MessageIdOf(g, i);
        RequestTells(g, token, i, input, delivers, verdict, more);
      }
    }
  }

  lemma MessageIdOf(g: Gear, i: nat)
    requires g.Valid() && 2 <= i < g.Length()
    ensures OrderMessage(g.imei, i, g.orders[i - 2]).msgId == g.orders[i - 2].MsgId()
  {
  }

  /** The token the device presents: what the first frame it reads holds behind its third byte. */
  function TokenRead(input: seq<Byte>): Text {
    var r := Read(input).outcome;
    if r.Ok? && |r.value.body| >= 3 then r.value.body[3..] else []
  }

  /**
    All the device does, for any bytes that arrive and any writes that fail: which requests it
    makes, with what token, and where and why it stops.
  */
  lemma StoryIsExact(g: Gear, input: seq<Byte>, delivers: nat -> bool)
    requires g.Valid()
    ensures Tells(g, TokenRead(input), 0, ReadAll(input).frames, delivers, Enroll(g.imei, g.model, g.orders, input, delivers))
  {
    hide Read, Tells, GetU16, Follow, DeviceBodies.RegBody, Authenticate;
    var token, frames := TokenRead(input), ReadAll(input).frames;
    if !delivers(0) {
      UnsentTells(g, token, 0, frames, delivers);
    } else {
      var r := Read(input);
      var verdict := JudgeRegistration(r.outcome);
      var more := Story([], Running);
      if verdict == Running {
        AuthenticateTells(g, token, input[r.used..], delivers);
        more := Authenticate(g.imei, token, g.orders, input[r.used..], delivers);
      }
      RequestTells(g, token, 0, input, delivers, verdict, more);
    }
  }

  lemma AuthenticateTells(g: Gear, token: Text, input: seq<Byte>, delivers: nat -> bool)
    requires g.Valid()
    ensures Tells(g, token, 1, ReadAll(input).frames, delivers, Authenticate(g.imei, token, g.orders, input, delivers))
  {
    hide Read, Tells, GetU16, Follow;
    if !delivers(1) {
      UnsentTells(g, token, 1, ReadAll(input).frames, delivers);
    } else {
      var r := Read(input);
      var verdict := JudgeAuthentication(r.outcome);
      var more := Story([], Running);
      if verdict == Running {
        FollowTells(g, token, 2, input[r.used..], delivers);
        assert g.orders[0..] == g.orders;
        more := Follow(g.imei, 2, g.orders, input[r.used..], delivers);
      }
      RequestTells(g, token, 1, input, delivers, verdict, more);
    }
  }

  /** The requests in numbers. */
  lemma RequestsInNumbers(g: Gear, token: Text, k: nat)
    requires g.Valid() && k < g.Length()
    ensures var m := Query(g, token, k);
            && m.phone == g.imei && m.seqNum == (k + 1) % 65536
            && (k == 0 ==> m.msgId == 0x0100 && m.body == DeviceBodies.RegBody(g.imei, g.model))
            && (k == 1 ==> m.msgId == 0x0102 && m.body == token)
            && (k >= 2 && g.orders[k - 2].Beat? ==> m.msgId == 0x0002 && m.body == [])
            && (k >= 2 && g.orders[k - 2].Report? ==>
                 var o := g.orders[k - 2];
                 m.msgId == 0x0200 && o.Valid() && m.body == DeviceBodies.LocationBody(o.state, o.time, o.signal))
  {
    hide DeviceBodies.RegBody, DeviceBodies.LocationBody;
  }

  /** What satisfies the device, in numbers. */
  lemma SatisfactionInNumbers(g: Gear, k: nat, f: Frame)
    requires k < g.Length()
    ensures Satisfies(g, k, f) <==>
            if k == 0 then f.msgId == 0x8100 && |f.body| >= 3 && f.body[2] == 0
            else if k == 1 then f.msgId == 0x8001 && |f.body| >= 5 && f.body[4] == 0
            else
              f.msgId == 0x8001 &&
              (|f.body| >= 5 ==>
                f.body[4] == 0 && 256 * (f.body[2] as int) + f.body[3] == if g.orders[k - 2].Beat? then 0x0002 else 0x0200)
  {
  }

  // ---- the server's side ----

  /** Nothing goes wrong: writes succeed, the token store answers, and the device may connect. */
  predicate Kind(env: Env) {
    env.writeOk && env.redisOk && (env.check == Approved || env.check == AutoCreated)
  }

  /** What an operation makes of its session, up to everything it leads to, when the token is the right one. */
  function Fulfil(s: Sess, op: Op, env: Env): Sess {
    if op.Validate? then Own(s.(state := Authenticated), Ack(op.frame, OK), env) else Own(s, op, env)
  }

  function Accomplish(s: Sess, ops: seq<Op>, env: Env): Sess
    decreases |ops|
  {
    if ops == [] then s else Accomplish(Fulfil(s, ops[0], env), ops[1..], env)
  }

  lemma {:induction false} AccomplishConcat(s: Sess, a: seq<Op>, b: seq<Op>, env: Env)
    ensures Accomplish(s, a + b, env) == Accomplish(Accomplish(s, a, env), b, env)
    decreases |a|
  {
    hide Fulfil;
    if a == [] {
      assert a + b == b;
    } else {
      assert (a + b)[1..] == a[1..] + b;
      AccomplishConcat(Fulfil(s, a[0], env), a[1..], b, env);
    }
  }

  lemma AccomplishFew(s: Sess, a: Op, b: Op, c: Op, d: Op, env: Env)
    ensures Accomplish(s, [], env) == s
    ensures Accomplish(s, [a], env) == Fulfil(s, a, env)
    ensures Accomplish(s, [a, b], env) == Fulfil(Fulfil(s, a, env), b, env)
    ensures Accomplish(s, [a, b, c], env) == Fulfil(Fulfil(Fulfil(s, a, env), b, env), c, env)
    ensures Accomplish(s, [a, b, c, d], env) == Fulfil(Fulfil(Fulfil(Fulfil(s, a, env), b, env), c, env), d, env)
  {
    hide Fulfil;
    AccomplishConcat(s, [a], [b], env);
    AccomplishConcat(s, [a] + [b], [c], env);
    AccomplishConcat(s, [a] + [b] + [c], [d], env);
    assert [a] + [b] == [a, b] && [a] + [b] + [c] == [a, b, c] && [a] + [b] + [c] + [d] == [a, b, c, d];
  }

  /** The last environment makes no difference as long as writes succeed. */
  lemma {:induction false} AccomplishAnyhow(s: Sess, ops: seq<Op>, env: Env, other: Env)
    requires env.writeOk && other.writeOk
    ensures Accomplish(s, ops, env) == Accomplish(s, ops, other)
    decreases |ops|
  {
    if ops != [] {
      assert Fulfil(s, ops[0], env) == Fulfil(s, ops[0], other);
      hide Fulfil;
      AccomplishAnyhow(Fulfil(s, ops[0], env), ops[1..], env, other);
    }
  }

  function DeviceId(g: Gear): Text {
    var r := Registration.Decode(DeviceBodies.RegBody(g.imei, g.model));
    if r.Ok? then r.value.deviceId else []
  }

  /** The session once k requests are answered. */
  function Settled(g: Gear, token: Text, k: nat): Sess
    requires g.Valid() && k <= g.Length()
  {
    if k == 0 then FRESH
    else Sess(g.Heard(), DeviceId(g), token, if k == 1 then Registered else Authenticated, k % 0x1_0000_0000, true,
              Answers(g, token, 0, k))
  }

  /** The token the server makes for the device at the second of its registration. */
  function TokenFor(g: Gear, env: Env): Text {
    Token(g.Heard(), env.now)
  }

  /** Doing all that request k calls for brings the session from one settled state to the next. */
  lemma RequestSettles(g: Gear, token: Text, k: nat, env: Env)
    requires g.Valid() && k < g.Length() && Kind(env)
    requires k == 0 ==> token == TokenFor(g, env)
    ensures var s, f := Settled(g, token, k), Query(g, token, k).Received();
            Accomplish(s, Program(s.state, f, env), env) == Settled(g, token, k + 1)
  {
    if k == 0 {
      RegistrationSettles(g, token, env);
    } else if k == 1 {
      AuthenticationSettles(g, token, env);
    } else {
      OrderSettles(g, token, k, env);
    }
  }

  /** Answering from a settled state: the counter, and what is written. */
  lemma AnswerSettles(g: Gear, token: Text, k: nat, s: Sess, env: Env)
    requires g.Valid() && k < g.Length() && env.writeOk
    requires s.open && s.phone == g.Heard() && s.outSeq == k % 0x1_0000_0000 && s.wire == Answers(g, token, 0, k)
    ensures var a := Answer(g, token, k);
            Own(s, Reply(a.msgId, a.body, []), env) ==
            s.(outSeq := (k + 1) % 0x1_0000_0000, wire := Answers(g, token, 0, k + 1))
  {
    hide Written, AckBody, RegistrationAckBody, Answers;
    AnswersSnoc(g, token, 0, k);
    Discipline.SeqWraps(k);
    assert k == 0 ==> (k + 1) % 0x1_0000 == 1;
  }

  lemma RegistrationSettles(g: Gear, token: Text, env: Env)
    requires g.Valid() && Kind(env) && token == TokenFor(g, env)
    ensures var f := Query(g, token, 0).Received();
            Accomplish(FRESH, Program(Connected, f, env), env) == Settled(g, token, 1)
  {
    hide Written, Answers, Registration.Decode, DeviceBodies.RegBody, Token, RegistrationAckBody;
    var f, a := Query(g, token, 0).Received(), Answer(g, token, 0);
    Registration.SimulatorTrip(g.imei, g.model);
    var body := RegistrationAckBody(1, REG_SUCCESS, token);
    var ops := [Identify(f.phone, DeviceId(g)), StoreToken(f.phone, token), MarkRegistered(token),
                Reply(REGISTRATION_RESP, body, [])];
    assert Program(Connected, f, env) == [Count(Frames)] + ops;
    AccomplishConcat(FRESH, [Count(Frames)], ops, env);
    AccomplishFew(FRESH, Count(Frames), ops[0], ops[0], ops[0], env);
    AccomplishFew(FRESH, ops[0], ops[1], ops[2], ops[3], env);
    NoAnswers(g, token);
    var s := Fulfil(Fulfil(Fulfil(FRESH, ops[0], env), ops[1], env), ops[2], env);
    AnswerSettles(g, token, 0, s, env);
  }

  lemma AuthenticationSettles(g: Gear, token: Text, env: Env)
    requires g.Valid() && Kind(env)
    ensures var f := Query(g, token, 1).Received();
            Accomplish(Settled(g, token, 1), Program(Registered, f, env), env) == Settled(g, token, 2)
  {
    hide Written, Answers, Registration.Decode, DeviceBodies.RegBody;
    var f, s := Query(g, token, 1).Received(), Settled(g, token, 1);
    assert Program(Registered, f, env) == [Count(Frames), AdoptPhone(f.phone), Validate(f)];
    AccomplishFew(s, Count(Frames), AdoptPhone(f.phone), Validate(f), Validate(f), env);
    AnswerSettles(g, token, 1, s.(state := Authenticated), env);
  }

  lemma OrderSettles(g: Gear, token: Text, k: nat, env: Env)
    requires g.Valid() && 2 <= k < g.Length() && Kind(env)
    ensures var f := Query(g, token, k).Received();
            Accomplish(Settled(g, token, k), Program(Authenticated, f, env), env) == Settled(g, token, k + 1)
  {
    hide Written, Answers, Registration.Decode, DeviceBodies.RegBody, Order.Body;
    var f, s := Query(g, token, k).Received(), Settled(g, token, k);
    AnswerSettles(g, token, k, s, env);
    if f.msgId == HEARTBEAT {
      assert Program(Authenticated, f, env) == [Count(Frames), Op.Beat, Ack(f, OK), Count(Heartbeats)];
      AccomplishFew(s, Count(Frames), Op.Beat, Ack(f, OK), Count(Heartbeats), env);
    } else {
      var reply := Reply(PLATFORM_RESP, AckBody(f.seqNum, f.msgId, OK), [Publish(f)]);
      assert Program(Authenticated, f, env) == [Count(Frames), reply];
      AccomplishFew(s, Count(Frames), reply, reply, reply, env);
    }
  }
}
