/** The P901 simulator's session with the server, from registration to the tick loop. */
module Device {
  import opened Bytes
  import opened Wire
  import opened WireTheorems
  import opened World
  import Codec
  import DeviceBodies

  /** What the device's clocks ask for. */
  datatype Order = Report(state: DeviceBodies.State, time: DeviceBodies.Time, signal: Byte) | Beat {
    predicate Valid() {
      this.Report? ==> DeviceBodies.WireRange(state) && time.Valid()
    }

    function MsgId(): U16 {
      if this.Report? then LOCATION_REPORT else HEARTBEAT
    }

    function Body(): Text
      requires Valid()
    {
      if this.Report? then DeviceBodies.LocationBody(state, time, signal) else []
    }
  }

  datatype Failure =
    | Unsent
    | Unread(error: ReadError)
    | UnexpectedResponse(msgId: U16)
    | Rejected(result: Byte)
    | NotAuthenticated
    | NotAnAck(msgId: U16)
    | AckForOther(expected: U16, found: U16)
    | BadResult(result: Byte, msgId: U16)

  datatype Outcome = Running | Failed(failure: Failure)

  /** A session up to the end of its orders: what was sent, and how it stands. */
  datatype Story = Story(sent: seq<Message>, outcome: Outcome) {
    function After(messages: seq<Message>): Story {
      Story(messages + sent, outcome)
    }
  }

  // ---- judging replies ----

  function JudgeRegistration(r: Result<Frame, ReadError>): Outcome {
    match r
    case Err(error) => Failed(Unread(error))
    case Ok(f) =>
      if f.msgId != REGISTRATION_RESP || |f.body| < 3 then Failed(UnexpectedResponse(f.msgId))
      else if f.body[2] != REG_SUCCESS then Failed(Rejected(f.body[2]))
      else Running
  }

  function JudgeAuthentication(r: Result<Frame, ReadError>): Outcome {
    match r
    case Err(error) => Failed(Unread(error))
    case Ok(f) =>
      if f.msgId != PLATFORM_RESP || |f.body| < 5 || f.body[4] != OK then Failed(NotAuthenticated) else Running
  }

  /** An acknowledgement is checked only as far as it is long enough to say something. */
  function JudgeAck(r: Result<Frame, ReadError>, forMsg: U16): Outcome {
    match r
    case Err(error) => Failed(Unread(error))
    case Ok(f) =>
      if f.msgId != PLATFORM_RESP then Failed(NotAnAck(f.msgId))
      else if |f.body| < 5 then Running
      else if GetU16(f.body, 2) != forMsg then Failed(AckForOther(forMsg, GetU16(f.body, 2)))
      else if f.body[4] != OK then Failed(BadResult(f.body[4], forMsg))
      else Running
  }

  // ---- the session as a function of what the server writes ----

  function OrderMessage(imei: Text, sent: nat, order: Order): Message
    requires order.Valid()
  {
    Message(order.MsgId(), imei, (sent + 1) % 0x1_0000, order.Body())
  }

  predicate AllValid(orders: seq<Order>) {
    forall o :: o in orders ==> o.Valid()
  }

  /** Carrying out orders after sent messages; delivers tells which writes succeed. */
  function Follow(imei: Text, sent: nat, orders: seq<Order>, input: seq<Byte>, delivers: nat -> bool): Story
    requires AllValid(orders)
    decreases |orders|
  {
    if orders == [] then Story([], Running)
    else if !delivers(sent) then Story([], Failed(Unsent))
    else
      var m, r := OrderMessage(imei, sent, orders[0]), Read(input);
      var verdict := JudgeAck(r.outcome, m.msgId);
      if verdict != Running then Story([m], verdict)
      else Follow(imei, sent + 1, orders[1..], input[r.used..], delivers).After([m])
  }

  function Authenticate(imei: Text, token: Text, orders: seq<Order>, input: seq<Byte>, delivers: nat -> bool): Story
    requires AllValid(orders)
  {
    if !delivers(1) then Story([], Failed(Unsent))
    else
      var m, r := Message(AUTHENTICATION, imei, 2, token), Read(input);
      var verdict := JudgeAuthentication(r.outcome);
      if verdict != Running then Story([m], verdict)
      else Follow(imei, 2, orders, input[r.used..], delivers).After([m])
  }

  function Enroll(imei: Text, model: Text, orders: seq<Order>, input: seq<Byte>, delivers: nat -> bool): Story
    requires AllValid(orders)
  {
    if !delivers(0) then Story([], Failed(Unsent))
    else
      var m, r := Message(REGISTRATION, imei, 1, DeviceBodies.RegBody(imei, model)), Read(input);
      var verdict := JudgeRegistration(r.outcome);
      if verdict != Running then Story([m], verdict)
      else Authenticate(imei, r.outcome.value.body[3..], orders, input[r.used..], delivers).After([m])
  }

  // ---- the session as it runs ----

  method ReadACK(src: Codec.ByteSource, forMsg: U16) returns (r: Outcome)
    requires src.Valid()
    modifies src
    ensures src.Valid()
    ensures r == JudgeAck(Read(old(src.Rest())).outcome, forMsg)
    ensures src.Rest() == old(src.Rest())[Read(old(src.Rest())).used..]
  {
    hide Read, GetU16;
    var read := Codec.ReadFrame(src);
    if read.Err? {
      return Failed(Unread(read.error));
    }
    var f := read.value;
    if f.msgId != PLATFORM_RESP {
      return Failed(NotAnAck(f.msgId));
    }
    if |f.body| >= 5 {
      var replyMsgId, result := GetU16(f.body, 2), f.body[4];
      if replyMsgId != forMsg {
        return Failed(AckForOther(forMsg, replyMsgId));
      }
      if result != OK {
        return Failed(BadResult(result, forMsg));
      }
    }
    r := Running;
  }

  method SendOrder(conn: Codec.Conn, imei: Text, seqNum: U16, order: Order, delivered: bool) returns (ok: bool)
    requires order.Valid() && conn.open
    modifies conn`written
    ensures ok == delivered
    ensures conn.written == old(conn.written) +
              if ok then Message(order.MsgId(), imei, seqNum, order.Body()).Bytes() else []
  {
    hide Written, DeviceBodies.LocationBody, DeviceBodies.WireRange;
    match order {
      case Report(state, time, signal) =>
        var body := DeviceBodies.BuildLocationBody(state, time, signal);
        ok := Codec.WriteFrame(conn, LOCATION_REPORT, imei, seqNum, body, delivered);
      case Beat =>
        ok := Codec.WriteFrame(conn, HEARTBEAT, imei, seqNum, [], delivered);
    }
  }

  /**
    The session of a device whose clocks ask for a first report and then for the ticks. The
    sequence counter has 16 bits. Running means that all of it went well.
  */
  method RunDevice(conn: Codec.Conn, src: Codec.ByteSource, imei: Text, model: Text, first: Order, ticks: seq<Order>,
                   delivers: nat -> bool) returns (r: Outcome)
    requires src.Valid() && conn.open && first.Report? && AllValid([first] + ticks)
    modifies conn`written, src
    ensures var story := Enroll(imei, model, [first] + ticks, old(src.Rest()), delivers);
            r == story.outcome && conn.written == old(conn.written) + BackToBack(story.sent)
  {
    hide Written, Read, Follow, Authenticate, DeviceBodies.RegBody;
    var orders := [first] + ticks;
    var seqNum: U16 := 1;
    var body := DeviceBodies.BuildRegBody(imei, model);
    var ok := Codec.WriteFrame(conn, REGISTRATION, imei, seqNum, body, delivers(0));
    if !ok {
      return Failed(Unsent);
    }
    var read := Codec.ReadFrame(src);
    if read.Err? {
      return Failed(Unread(read.error));
    }
    var resp := read.value;
    if resp.msgId != REGISTRATION_RESP || |resp.body| < 3 {
      return Failed(UnexpectedResponse(resp.msgId));
    }
    if resp.body[2] != REG_SUCCESS {
      return Failed(Rejected(resp.body[2]));
    }
    r := AuthenticateAndTick(conn, src, imei, resp.body[3..], orders, delivers);
  }

  method AuthenticateAndTick(conn: Codec.Conn, src: Codec.ByteSource, imei: Text, token: Text, orders: seq<Order>,
                             delivers: nat -> bool) returns (r: Outcome)
    requires src.Valid() && conn.open && AllValid(orders)
    modifies conn`written, src
    ensures var story := Authenticate(imei, token, orders, old(src.Rest()), delivers);
            r == story.outcome && conn.written == old(conn.written) + BackToBack(story.sent)
  {
    hide Written, Read, Follow;
    var ok := Codec.WriteFrame(conn, AUTHENTICATION, imei, 2, token, delivers(1));
    if !ok {
      return Failed(Unsent);
    }
    var ack := Codec.ReadFrame(src);
    if ack.Err? {
      return Failed(Unread(ack.error));
    }
    if ack.value.msgId != PLATFORM_RESP || |ack.value.body| < 5 || ack.value.body[4] != OK {
      return Failed(NotAuthenticated);
    }
    r := Tick(conn, src, imei, orders, delivers);
  }

  method Tick(conn: Codec.Conn, src: Codec.ByteSource, imei: Text, orders: seq<Order>, delivers: nat -> bool)
    returns (r: Outcome)
    requires src.Valid() && conn.open && AllValid(orders)
    modifies conn`written, src
    ensures var story := Follow(imei, 2, orders, old(src.Rest()), delivers);
            r == story.outcome && conn.written == old(conn.written) + BackToBack(story.sent)
  {
    hide Written, Read, JudgeAck, Order.Valid, Order.Body, Order.MsgId, Follow, BackToBack, Message.Bytes;
    var seqNum: U16, i := 2, 0;
    ghost var whole := Follow(imei, 2, orders, src.Rest(), delivers);
    ghost var done: seq<Message> := [];
    NothingSent();
    while i < |orders|
      invariant 0 <= i <= |orders| && src.Valid() && conn.open && seqNum == (2 + i) % 0x1_0000
      invariant conn.written == old(conn.written) + BackToBack(done)
      invariant whole == Follow(imei, 2 + i, orders[i..], src.Rest(), delivers).After(done)
    {
      FollowStep(imei, 2 + i, orders, i, src.Rest(), delivers, done);
      Wraps(2 + i);
      seqNum := (seqNum + 1) % 0x1_0000;
      ghost var m := OrderMessage(imei, 2 + i, orders[i]);
      BackToBackSnoc(done, m);
      var ok := SendOrder(conn, imei, seqNum, orders[i], delivers(2 + i));
      if !ok {
        return Failed(Unsent);
      }
      assert conn.written == old(conn.written) + BackToBack(done + [m]);
      done := done + [m];
      r := ReadACK(src, orders[i].MsgId());
      if r != Running {
        return;
      }
      i := i + 1;
    }
    FollowEnd(imei, 2 + i, src.Rest(), delivers, done);
    r := Running;
  }

  lemma Wraps(n: nat)
    ensures (n % 0x1_0000 + 1) % 0x1_0000 == (n + 1) % 0x1_0000
  {
  }

  lemma NothingSent()
    ensures BackToBack([]) == []
  {
  }

  lemma FollowEnd(imei: Text, sent: nat, input: seq<Byte>, delivers: nat -> bool, done: seq<Message>)
    ensures Follow(imei, sent, [], input, delivers).After(done) == Story(done, Running)
  {
    assert done + [] == done;
  }

  lemma FollowStep(imei: Text, sent: nat, orders: seq<Order>, i: nat, input: seq<Byte>, delivers: nat -> bool,
                   done: seq<Message>)
    requires i < |orders| && AllValid(orders)
    ensures var m, r := OrderMessage(imei, sent, orders[i]), Read(input);
            var verdict := JudgeAck(r.outcome, m.msgId);
            Follow(imei, sent, orders[i..], input, delivers).After(done) ==
            if !delivers(sent) then Story(done, Failed(Unsent))
            else if verdict != Running then Story(done + [m], verdict)
            else Follow(imei, sent + 1, orders[i + 1..], input[r.used..], delivers).After(done + [m])
  {
    hide Read, JudgeAck, Order.Body, Order.MsgId, Order.Valid;
    var m, r := OrderMessage(imei, sent, orders[i]), Read(input);
    assert orders[i..][1..] == orders[i + 1..];
    assert done + [] == done;
    var more := Follow(imei, sent + 1, orders[i + 1..], input[r.used..], delivers);
    assert done + ([m] + more.sent) == done + [m] + more.sent;
  }
}
